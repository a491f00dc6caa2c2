/** The class UntreatedParts of fdcache_untreated.cpp: which bytes were written but not uploaded
    yet, as a sorted list of areas, and which area was written last. */
module Untreated {

  datatype Part = Part(start: int, size: int, tag: int) {
    ghost predicate Covers(b: int) { start <= b < start + size }

    /** untreatedpart::check_overlap: the areas overlap or are adjacent. */
    predicate Touches(s: int, n: int) {
      0 <= s && 0 < n && 0 <= start && 0 < size && start <= s + n && s <= start + size
    }

    /** untreatedpart::stretch on areas that touch. */
    function Stretch(s: int, n: int, newTag: int): Part {
      var from := if s < start then s else start;
      var stop := if start + size < s + n then s + n else start + size;
      Part(from, stop - from, newTag)
    }
  }

  /** The constructor of untreatedpart: wrong parameters give the empty part. */
  function MakePart(start: int, size: int, tag: int): Part {
    if start < 0 || size <= 0 then Part(0, 0, 0) else Part(start, size, tag)
  }

  /** Some part of ps covers b. */
  ghost predicate Holds(ps: seq<Part>, b: int) {
    exists k :: 0 <= k < |ps| && ps[k].Covers(b)
  }

  /** The normal form: real areas, sorted, with a byte to spare between any two. */
  ghost predicate Separate(ps: seq<Part>) {
    && (forall k :: 0 <= k < |ps| ==> 0 <= ps[k].start && 0 < ps[k].size)
    && (forall j, k :: 0 <= j < k < |ps| ==> ps[j].start + ps[j].size < ps[k].start)
  }

  /** Tags never pass lastTag, and at most one part carries it. */
  ghost predicate Tagged(ps: seq<Part>, lastTag: int) {
    && (forall k :: 0 <= k < |ps| ==> ps[k].tag <= lastTag)
    && (forall j, k :: 0 <= j < k < |ps| ==> ps[j].tag != lastTag || ps[k].tag != lastTag)
  }

  /** The position of the first part with the tag, or |ps|. */
  function FindTag(ps: seq<Part>, tag: int): (k: nat)
    ensures k <= |ps|
    ensures k < |ps| ==> ps[k].tag == tag
    ensures forall j :: 0 <= j < k ==> ps[j].tag != tag
  {
    if ps == [] then 0 else if ps[0].tag == tag then 0
    else
      var k := FindTag(ps[1..], tag);
      assert forall j :: 1 <= j < k + 1 ==> ps[j] == ps[1..][j - 1];
      k + 1
  }

  /** Two lists in normal form that hold the same bytes have the same areas. */
  lemma {:induction false} SeparateUnique(ps: seq<Part>, qs: seq<Part>)
    requires Separate(ps) && Separate(qs)
    requires forall b :: Holds(ps, b) <==> Holds(qs, b)
    ensures |ps| == |qs| && forall k :: 0 <= k < |ps| ==> ps[k].start == qs[k].start && ps[k].size == qs[k].size
  {
    if ps == [] || qs == [] {
      if ps != [] { assert ps[0].Covers(ps[0].start); assert Holds(ps, ps[0].start); }
      if qs != [] { assert qs[0].Covers(qs[0].start); assert Holds(qs, qs[0].start); }
    } else {
      FirstAgrees(ps, qs);
      FirstAgrees(qs, ps);
      assert ps[0].start == qs[0].start && ps[0].size == qs[0].size;
      forall b ensures Holds(ps[1..], b) <==> Holds(qs[1..], b) {
        HoldsTail(ps, b);
        HoldsTail(qs, b);
      }
      SeparateUnique(ps[1..], qs[1..]);
      forall k | 0 < k < |ps| ensures ps[k].start == qs[k].start && ps[k].size == qs[k].size {
        assert ps[k] == ps[1..][k - 1] && qs[k] == qs[1..][k - 1];
      }
    }
  }

  lemma HoldsTail(ps: seq<Part>, b: int)
    requires Separate(ps) && ps != []
    ensures Holds(ps[1..], b) <==> Holds(ps, b) && !ps[0].Covers(b)
  {
    if k :| 0 <= k < |ps| && ps[k].Covers(b) {
      if k > 0 { assert ps[1..][k - 1].Covers(b); }
    }
    var rest := ps[1..];
    if k :| 0 <= k < |rest| && rest[k].Covers(b) {
      assert ps[k + 1].Covers(b);
    }
  }

  lemma HoldsFirst(ps: seq<Part>)
    requires Separate(ps) && ps != []
    ensures forall b :: Holds(ps, b) ==> ps[0].start <= b
    ensures !Holds(ps, ps[0].start + ps[0].size)
  {
  }

  lemma FirstAgrees(ps: seq<Part>, qs: seq<Part>)
    requires Separate(ps) && Separate(qs) && ps != [] && qs != []
    requires forall b :: Holds(ps, b) ==> Holds(qs, b)
    ensures qs[0].start <= ps[0].start
    ensures qs[0].start == ps[0].start ==> ps[0].size <= qs[0].size
  {
    HoldsFirst(qs);
    HoldsAt(ps, 0, ps[0].start);
    HoldsAt(ps, 0, qs[0].start + qs[0].size);
  }

  lemma HoldsAt(ps: seq<Part>, k: nat, b: int)
    requires k < |ps|
    ensures ps[k].Covers(b) ==> Holds(ps, b)
  {
  }

  // ---- adding a range

  /** qs is ps plus the bytes [start, start + size). */
  ghost predicate Adds(ps: seq<Part>, start: int, size: int, qs: seq<Part>) {
    forall b :: Holds(qs, b) <==> Holds(ps, b) || start <= b < start + size
  }

  /** Part k carries the tag, all others have smaller ones. */
  ghost predicate Newest(ps: seq<Part>, k: int, tag: int) {
    0 <= k < |ps| && ps[k].tag == tag && forall j :: 0 <= j < |ps| && j != k ==> ps[j].tag < tag
  }

  /** m is the hull of [start, start + size) and the parts ps[i..j], and has no hole. */
  ghost predicate Covered(ps: seq<Part>, i: nat, j: nat, start: int, size: int, m: Part) {
    && i <= j <= |ps| && 0 <= m.start <= start && start + size <= m.start + m.size
    && (forall k :: i <= k < j ==> m.start <= ps[k].start && ps[k].start + ps[k].size <= m.start + m.size)
    && (forall b :: m.Covers(b) ==> start <= b < start + size || exists k :: i <= k < j && ps[k].Covers(b))
  }

  lemma CoveredNext(ps: seq<Part>, i: nat, j: nat, start: int, size: int, m: Part, tag: int)
    requires Separate(ps) && Covered(ps, i, j, start, size, m) && j < |ps| && 0 < size
    requires m.Touches(ps[j].start, ps[j].size)
    ensures Covered(ps, i, j + 1, start, size, m.Stretch(ps[j].start, ps[j].size, tag))
  {
    var n := m.Stretch(ps[j].start, ps[j].size, tag);
    forall b | n.Covers(b) ensures start <= b < start + size || exists k :: i <= k < j + 1 && ps[k].Covers(b) {
      if !m.Covers(b) {
        assert ps[j].Covers(b);
      }
    }
  }

  lemma MergedResult(ps: seq<Part>, i: nat, j: nat, start: int, size: int, m: Part)
    requires Separate(ps) && i < j && Covered(ps, i, j, start, size, m) && 0 < size
    requires forall k :: 0 <= k < i ==> ps[k].start + ps[k].size < m.start
    requires forall k :: j <= k < |ps| ==> m.start + m.size < ps[k].start
    ensures var qs := ps[..i] + [m] + ps[j..];
            Separate(qs) && Adds(ps, start, size, qs)
  {
    MergedSeparate(ps, i, j, m);
    forall b ensures Holds(ps[..i] + [m] + ps[j..], b) <==> Holds(ps, b) || start <= b < start + size {
      HoldsConcat(ps[..i], [m], b);
      HoldsConcat(ps[..i] + [m], ps[j..], b);
      HoldsConcat(ps[..i], ps[i..j], b);
      HoldsConcat(ps[..j], ps[j..], b);
      assert ps == ps[..j] + ps[j..] && ps[..j] == ps[..i] + ps[i..j];
      HullHolds(ps, i, j, start, size, m, b);
    }
  }

  /** The merged part holds what the parts it replaces held and the new area, nothing else. */
  lemma HullHolds(ps: seq<Part>, i: nat, j: nat, start: int, size: int, m: Part, b: int)
    requires Covered(ps, i, j, start, size, m)
    ensures Holds([m], b) <==> Holds(ps[i..j], b) || start <= b < start + size
  {
    if k :| 0 <= k < j - i && ps[i..j][k].Covers(b) { assert [m][0].Covers(b); }
    if start <= b < start + size { assert [m][0].Covers(b); }
    if [m][0].Covers(b) && !(start <= b < start + size) {
      var k :| i <= k < j && ps[k].Covers(b);
      assert ps[i..j][k - i].Covers(b);
    }
  }

  lemma HoldsConcat(a: seq<Part>, c: seq<Part>, b: int)
    ensures Holds(a + c, b) <==> Holds(a, b) || Holds(c, b)
  {
    if k :| 0 <= k < |a| && a[k].Covers(b) { assert (a + c)[k].Covers(b); }
    if k :| 0 <= k < |c| && c[k].Covers(b) { assert (a + c)[|a| + k].Covers(b); }
    if k :| 0 <= k < |a + c| && (a + c)[k].Covers(b) {
      if k < |a| { assert a[k].Covers(b); } else { assert c[k - |a|].Covers(b); }
    }
  }

  lemma MergedSeparate(ps: seq<Part>, i: nat, j: nat, m: Part)
    requires Separate(ps) && i < j <= |ps| && 0 <= m.start && 0 < m.size
    requires forall k :: 0 <= k < i ==> ps[k].start + ps[k].size < m.start
    requires forall k :: j <= k < |ps| ==> m.start + m.size < ps[k].start
    ensures Separate(ps[..i] + [m] + ps[j..])
  {
  }

  // ---- removing a range

  /** What ClearParts leaves of ps; size 0 stands for everything from start on. The branch for a
      part that sticks out on both sides works with the size it has just shortened, so the part it
      inserts for the tail is the empty one. */
  ghost function Cleared(ps: seq<Part>, start: int, size: int): seq<Part> {
    if ps == [] then []
    else
      var p := ps[0];
      if 0 != size && start + size <= p.start then ps
      else if start <= p.start then
        if 0 != size && start + size < p.start + p.size then
          [Part(start + size, p.start + p.size - (start + size), p.tag)] + ps[1..]
        else Cleared(ps[1..], start, size)
      else if start < p.start + p.size then
        var front := Part(p.start, start - p.start, p.tag);
        if 0 == size || p.start + p.size <= start + size then [front] + Cleared(ps[1..], start, size)
        else
          [front, MakePart(start + size, front.start + front.size - (start + size), p.tag)] +
          Cleared(ps[1..], start, size)
      else [p] + Cleared(ps[1..], start, size)
  }

  /** The area to clear lies strictly inside some part. */
  ghost predicate Straddled(ps: seq<Part>, start: int, size: int) {
    exists k :: 0 <= k < |ps| && Straddles(ps[k], start, size)
  }

  ghost predicate Straddles(p: Part, start: int, size: int) {
    p.start < start && 0 < size && start + size < p.start + p.size
  }

  ghost predicate InArea(b: int, start: int, size: int) {
    start <= b && (size == 0 || b < start + size)
  }

  /** qs is ps minus the area. */
  ghost predicate Removes(ps: seq<Part>, start: int, size: int, qs: seq<Part>) {
    forall b :: Holds(qs, b) <==> Holds(ps, b) && !InArea(b, start, size)
  }

  lemma HoldsCons(p: Part, ps: seq<Part>)
    ensures forall b :: Holds([p] + ps, b) <==> p.Covers(b) || Holds(ps, b)
  {
    forall b ensures Holds([p] + ps, b) <==> p.Covers(b) || Holds(ps, b) {
      if p.Covers(b) { assert ([p] + ps)[0].Covers(b); }
      if k :| 0 <= k < |ps| && ps[k].Covers(b) { assert ([p] + ps)[k + 1].Covers(b); }
      if k :| 0 <= k < |ps| + 1 && ([p] + ps)[k].Covers(b) {
        if k > 0 { assert ps[k - 1].Covers(b); }
      }
    }
  }

  /** Every part of Cleared lies in some part of ps. */
  ghost predicate Within(qs: seq<Part>, lo: int) {
    forall k :: 0 <= k < |qs| ==> lo <= qs[k].start
  }

  lemma Tail(ps: seq<Part>, start: int, size: int)
    requires Separate(ps) && ps != [] && !Straddled(ps, start, size)
    ensures Separate(ps[1..]) && !Straddled(ps[1..], start, size) && !Straddles(ps[0], start, size)
    ensures ps[1..] != [] ==> ps[1..][0] == ps[1] && ps[0].start + ps[0].size < ps[1].start
  {
    var rest := ps[1..];
    forall k | 0 <= k < |rest| ensures !Straddles(rest[k], start, size) {
      assert rest[k] == ps[k + 1] && !Straddles(ps[k + 1], start, size);
    }
    assert !Straddles(ps[0], start, size);
  }

  lemma {:induction false} ClearedShape(ps: seq<Part>, start: int, size: int)
    requires Separate(ps) && 0 <= start && 0 <= size && !Straddled(ps, start, size)
    ensures Separate(Cleared(ps, start, size)) && (ps != [] ==> Within(Cleared(ps, start, size), ps[0].start))
  {
    if ps != [] {
      Tail(ps, start, size);
      ClearedShape(ps[1..], start, size);
      ShapeFirst(ps, start, size, Cleared(ps[1..], start, size));
    }
  }

  lemma ShapeFirst(ps: seq<Part>, start: int, size: int, qs: seq<Part>)
    requires ps != [] && Separate(ps) && 0 <= start && 0 <= size && !Straddles(ps[0], start, size)
    requires Separate(ps[1..]) && qs == Cleared(ps[1..], start, size) && Separate(qs)
    requires ps[1..] != [] ==> ps[0].start + ps[0].size < ps[1..][0].start && Within(qs, ps[1..][0].start)
    ensures Separate(Cleared(ps, start, size)) && Within(Cleared(ps, start, size), ps[0].start)
  {
    var p, rest := ps[0], ps[1..];
    var lo := if rest != [] then rest[0].start else p.start + p.size + 1;
    if 0 != size && start + size <= p.start {
      WithinSelf(ps);
    } else if start <= p.start {
      if 0 != size && start + size < p.start + p.size {
        SeparateCons(Kept(p, start, size), rest, lo);
      }
    } else {
      SeparateCons(Kept(p, start, size), qs, lo);
    }
  }

  lemma WithinSelf(ps: seq<Part>)
    requires Separate(ps) && ps != []
    ensures Within(ps, ps[0].start)
  {
  }

  lemma SeparateCons(q: Part, qs: seq<Part>, lo: int)
    requires Separate(qs) && (qs != [] ==> lo <= qs[0].start) && 0 <= q.start && 0 < q.size && q.start + q.size < lo
    ensures Separate([q] + qs) && Within([q] + qs, q.start)
  {
    assert forall k :: 0 < k < |qs| ==> qs[0].start < qs[k].start;
  }

  lemma {:induction false} ClearedBytes(ps: seq<Part>, start: int, size: int)
    requires Separate(ps) && 0 <= start && 0 <= size && !Straddled(ps, start, size)
    ensures Removes(ps, start, size, Cleared(ps, start, size))
  {
    if ps != [] {
      Tail(ps, start, size);
      ClearedBytes(ps[1..], start, size);
      BytesFirst(ps, start, size, Cleared(ps[1..], start, size));
    }
  }

  lemma {:induction false} BytesFirst(ps: seq<Part>, start: int, size: int, qs: seq<Part>)
    requires ps != [] && Separate(ps) && Separate(ps[1..]) && 0 <= start && 0 <= size && !Straddles(ps[0], start, size)
    requires ps[1..] != [] ==> ps[0].start + ps[0].size < ps[1..][0].start
    requires qs == Cleared(ps[1..], start, size) && Removes(ps[1..], start, size, qs)
    ensures Removes(ps, start, size, Cleared(ps, start, size))
  {
    var p := ps[0];
    if 0 != size && start + size <= p.start {
      RemovesNone(ps, start, size);
    } else if start <= p.start {
      if 0 != size && start + size < p.start + p.size {
        RemovesNone(ps[1..], start, size);
        RemovesCons(ps, start, size, Kept(p, start, size), ps[1..]);
      } else {
        RemovesDrop(ps, start, size, qs);
      }
    } else {
      RemovesCons(ps, start, size, Kept(p, start, size), qs);
    }
  }

  lemma RemovesNone(ps: seq<Part>, start: int, size: int)
    requires Separate(ps) && (ps != [] ==> 0 != size && start + size <= ps[0].start)
    ensures Removes(ps, start, size, ps)
  {
    forall b | Holds(ps, b) ensures !InArea(b, start, size) {
      var k :| 0 <= k < |ps| && ps[k].Covers(b);
      assert k > 0 ==> ps[0].start + ps[0].size < ps[k].start;
    }
  }

  lemma RemovesCons(ps: seq<Part>, start: int, size: int, q: Part, qs: seq<Part>)
    requires ps != [] && Removes(ps[1..], start, size, qs)
    requires forall b :: q.Covers(b) <==> ps[0].Covers(b) && !InArea(b, start, size)
    ensures Removes(ps, start, size, [q] + qs)
  {
    assert ps == [ps[0]] + ps[1..];
    HoldsCons(ps[0], ps[1..]);
    HoldsCons(q, qs);
  }

  lemma RemovesDrop(ps: seq<Part>, start: int, size: int, qs: seq<Part>)
    requires ps != [] && Removes(ps[1..], start, size, qs)
    requires forall b :: ps[0].Covers(b) ==> InArea(b, start, size)
    ensures Removes(ps, start, size, qs)
  {
    assert ps == [ps[0]] + ps[1..];
    HoldsCons(ps[0], ps[1..]);
  }

  /** When a part does stick out on both sides, the list is left broken: the tail of that part is
      lost and an empty part stands in its place. */
  lemma {:induction false} ClearedBroken(ps: seq<Part>, k: nat, start: int, size: int)
    requires Separate(ps) && 0 <= start && k < |ps| && Straddles(ps[k], start, size)
    ensures var qs := Cleared(ps, start, size);
            |qs| == |ps| + 1 && qs[k] == ps[k].(size := start - ps[k].start) && qs[k + 1].size == 0
  {
    if k == 0 {
      BeyondUntouched(ps[1..], start, size);
    } else {
      assert ps[0].start + ps[0].size < ps[k].start;
      TailSeparate(ps);
      ClearedBroken(ps[1..], k - 1, start, size);
      assert Cleared(ps, start, size) == [ps[0]] + Cleared(ps[1..], start, size);
    }
  }

  lemma BeyondUntouched(ps: seq<Part>, start: int, size: int)
    requires ps != [] ==> 0 != size && start + size <= ps[0].start
    ensures Cleared(ps, start, size) == ps
  {
  }

  lemma TailSeparate(ps: seq<Part>)
    requires Separate(ps) && ps != []
    ensures Separate(ps[1..])
  {
  }

  ghost predicate NoTag(ps: seq<Part>, t: int) {
    forall k :: 0 <= k < |ps| ==> ps[k].tag != t
  }

  lemma TaggedCons(q: Part, qs: seq<Part>, t: int)
    requires Tagged(qs, t) && q.tag <= t && (q.tag == t ==> NoTag(qs, t))
    ensures Tagged([q] + qs, t) && (q.tag != t && NoTag(qs, t) ==> NoTag([q] + qs, t))
  {
  }

  lemma TaggedTail(ps: seq<Part>, t: int)
    requires Tagged(ps, t) && ps != []
    ensures Tagged(ps[1..], t) && ps[0].tag <= t && (ps[0].tag == t ==> NoTag(ps[1..], t))
    ensures NoTag(ps, t) <==> ps[0].tag != t && NoTag(ps[1..], t)
  {
    assert ps == [ps[0]] + ps[1..];
  }

  /** The first part of Cleared, or what is left of it. */
  ghost function Kept(p: Part, start: int, size: int): Part {
    if start <= p.start then Part(start + size, p.start + p.size - (start + size), p.tag)
    else if start < p.start + p.size then Part(p.start, start - p.start, p.tag)
    else p
  }

  lemma ClearedCases(ps: seq<Part>, start: int, size: int)
    requires ps != [] && !Straddles(ps[0], start, size) && 0 <= size
    ensures var qs := Cleared(ps, start, size);
            || qs == ps
            || qs == Cleared(ps[1..], start, size)
            || qs == [Kept(ps[0], start, size)] + ps[1..]
            || qs == [Kept(ps[0], start, size)] + Cleared(ps[1..], start, size)
  {
  }

  lemma {:induction false} ClearedTags(ps: seq<Part>, start: int, size: int, t: int)
    requires Separate(ps) && Tagged(ps, t) && !Straddled(ps, start, size) && 0 <= size
    ensures Tagged(Cleared(ps, start, size), t)
    ensures NoTag(ps, t) ==> NoTag(Cleared(ps, start, size), t)
  {
    if ps != [] {
      Tail(ps, start, size);
      TaggedTail(ps, t);
      ClearedTags(ps[1..], start, size, t);
      ClearedCases(ps, start, size);
      TaggedCons(Kept(ps[0], start, size), ps[1..], t);
      TaggedCons(Kept(ps[0], start, size), Cleared(ps[1..], start, size), t);
    }
  }

  /** ClearParts is set difference, and keeps the normal form and the tags, exactly when no part
      sticks out of the area on both sides. */
  lemma ClearedIff(ps: seq<Part>, start: int, size: int, t: int)
    requires Separate(ps) && Tagged(ps, t) && 0 <= start && 0 <= size
    ensures var qs := Cleared(ps, start, size);
            (Separate(qs) && Tagged(qs, t) && Removes(ps, start, size, qs)) <==> !Straddled(ps, start, size)
  {
    if Straddled(ps, start, size) {
      var k :| 0 <= k < |ps| && Straddles(ps[k], start, size);
      ClearedBroken(ps, k, start, size);
      assert Cleared(ps, start, size)[k + 1].size == 0;
    } else {
      ClearedShape(ps, start, size);
      ClearedBytes(ps, start, size);
      ClearedTags(ps, start, size, t);
    }
  }

  class UntreatedParts {
    var list: seq<Part>
    var lastTag: int

    ghost predicate Valid()
      reads this
    {
      Separate(list) && Tagged(list, lastTag)
    }

    constructor ()
      ensures Valid() && list == []
    {
      list, lastTag := [], 0;
    }

    /** Adds an area: set union, and the part that took it becomes the last updated one. */
    method AddPart(start: int, size: int) returns (ok: bool)
      requires Valid()
      modifies this
      ensures Valid() && ok == (0 <= start && 0 < size)
      ensures !ok ==> list == old(list) && lastTag == old(lastTag)
      ensures ok ==> Adds(old(list), start, size, list) && lastTag == old(lastTag) + 1
      ensures ok ==> var k := FindTag(list, lastTag);
                     Newest(list, k, lastTag) && list[k].start <= start && start + size <= list[k].start + list[k].size
    {
      if start < 0 || size <= 0 {
        return false;
      }
      lastTag := lastTag + 1;
      var ps := list;
      var i := 0;
      while i < |ps|
        invariant 0 <= i <= |ps|
        invariant forall k :: 0 <= k < i ==> ps[k].start + ps[k].size < start
      {
        if ps[i].Touches(start, size) {
          list := Absorb(ps, i, start, size, lastTag);
          return true;
        } else if start + size < ps[i].start {
          InsertedResult(ps, i, start, size, lastTag);
          list := ps[..i] + [MakePart(start, size, lastTag)] + ps[i..];
          return true;
        }
        i := i + 1;
      }
      InsertedResult(ps, i, start, size, lastTag);
      assert ps[..i] + [MakePart(start, size, lastTag)] + ps[i..] == ps + [MakePart(start, size, lastTag)];
      list := ps + [MakePart(start, size, lastTag)];
      return true;
    }

    /** Removes an area, everything from start on when size is 0. */
    method ClearParts(start: int, size: int) returns (ok: bool)
      requires Valid()
      modifies this`list
      ensures ok == (0 <= start && 0 <= size)
      ensures !ok ==> list == old(list)
      ensures ok ==> list == Cleared(old(list), start, size)
      // set difference, and still in normal form, exactly when no part straddles the area
      ensures ok ==> ((Valid() && Removes(old(list), start, size, list)) <==> !Straddled(old(list), start, size))
    {
      if start < 0 || size < 0 {
        return false;
      }
      ClearedIff(list, start, size, lastTag);
      if list == [] {
        return true;
      }
      list := ClearLoop(list, start, size);
      return true;
    }

    method ClearAll()
      requires Valid()
      modifies this`list
      ensures Valid() && list == []
    {
      ghost var ps := list;
      NoneStraddledAll(ps);
      var _ := ClearParts(0, 0);
      AllRemoved(ps, list);
    }

    /** The last updated area, cut to maxSize; nothing when it is shorter than minSize. */
    method GetLastUpdatedPart(maxSize: int, minSize: int) returns (ok: bool, start: int, size: int)
      requires Valid()
      ensures var k := FindTag(list, lastTag);
              ok <==> 0 < maxSize && 0 <= minSize <= maxSize && k < |list| && minSize <= list[k].size
      ensures ok ==> var k := FindTag(list, lastTag);
                     start == list[k].start && size == (if list[k].size <= maxSize then list[k].size else maxSize)
    {
      ok, start, size := false, 0, 0;
      if maxSize <= 0 || minSize < 0 || maxSize < minSize {
        return;
      }
      for i := 0 to |list|
        invariant forall j :: 0 <= j < i ==> list[j].tag != lastTag
      {
        if list[i].tag == lastTag {
          if minSize <= list[i].size {
            return true, list[i].start, if list[i].size <= maxSize then list[i].size else maxSize;
          } else {
            return;
          }
        }
      }
    }

    method GetLastUpdatePart() returns (ok: bool, start: int, size: int)
      ensures var k := FindTag(list, lastTag);
              ok == (k < |list|) && (ok ==> start == list[k].start && size == list[k].size)
    {
      ok, start, size := false, 0, 0;
      for i := 0 to |list|
        invariant forall j :: 0 <= j < i ==> list[j].tag != lastTag
      {
        if list[i].tag == lastTag {
          return true, list[i].start, list[i].size;
        }
      }
    }

    method ReplaceLastUpdatePart(start: int, size: int) returns (ok: bool)
      modifies this`list
      ensures var k := FindTag(old(list), lastTag);
              && ok == (k < |old(list)|)
              && list == if !ok then old(list)
                         else if 0 < size then old(list)[k := old(list)[k].(start := start, size := size)]
                         else old(list)[..k] + old(list)[k + 1..]
    {
      for i := 0 to |list|
        invariant list == old(list)
        invariant forall j :: 0 <= j < i ==> list[j].tag != lastTag
      {
        if list[i].tag == lastTag {
          if 0 < size {
            list := list[i := list[i].(start := start, size := size)];
          } else {
            list := list[..i] + list[i + 1..];
          }
          return true;
        }
      }
      return false;
    }

    method RemoveLastUpdatePart() returns (ok: bool)
      modifies this`list
      ensures var k := FindTag(old(list), lastTag);
              && ok == (k < |old(list)|)
              && list == if !ok then old(list) else old(list)[..k] + old(list)[k + 1..]
    {
      for i := 0 to |list|
        invariant list == old(list)
        invariant forall j :: 0 <= j < i ==> list[j].tag != lastTag
      {
        if list[i].tag == lastTag {
          list := list[..i] + list[i + 1..];
          return true;
        }
      }
      return false;
    }
  }

  lemma NoneStraddledAll(ps: seq<Part>)
    ensures !Straddled(ps, 0, 0)
  {
  }

  lemma AllRemoved(ps: seq<Part>, qs: seq<Part>)
    requires Separate(qs) && Removes(ps, 0, 0, qs)
    ensures qs == []
  {
    if qs != [] {
      HoldsAt(qs, 0, qs[0].start);
      assert false;
    }
  }

  method ClearLoop(parts: seq<Part>, start: int, size: int) returns (ps: seq<Part>)
    requires 0 <= start && 0 <= size && forall k :: 0 <= k < |parts| ==> 0 < parts[k].size
    ensures ps == Cleared(parts, start, size)
  {
    ps := parts;
    var i := 0;
    while i < |ps|
      invariant 0 <= i <= |ps|
      invariant forall k :: i <= k < |ps| ==> 0 < ps[k].size
      invariant ps[..i] + Cleared(ps[i..], start, size) == Cleared(parts, start, size)
      decreases |ps| - i, if i < |ps| then ps[i].size else 0
    {
      if 0 != size && start + size <= ps[i].start {
        break;
      }
      ps, i := ClearStep(ps, i, start, size);
    }
    assert ps[..i] + ps[i..] == ps && Cleared(ps[i..], start, size) == ps[i..];
  }

  /** The list qs with the cursor at next is ps with the cursor at i after a turn of the clearing loop. */
  ghost predicate ClearTurned(ps: seq<Part>, i: nat, start: int, size: int, qs: seq<Part>, next: nat)
    requires i < |ps|
  {
    && i <= next <= |qs| && (forall k :: next <= k < |qs| ==> 0 < qs[k].size)
    && qs[..next] + Cleared(qs[next..], start, size) == ps[..i] + Cleared(ps[i..], start, size)
    && (|qs| - next < |ps| - i || (|qs| - next == |ps| - i && next == i && qs[i].size < ps[i].size))
  }

  /** The area reaches the start of the part: the part goes, or its front does. */
  method ClearFront(ps: seq<Part>, i: nat, start: int, size: int) returns (qs: seq<Part>)
    requires i < |ps| && 0 <= start <= ps[i].start && 0 <= size && (0 == size || ps[i].start < start + size)
    requires forall k :: i <= k < |ps| ==> 0 < ps[k].size
    ensures ClearTurned(ps, i, start, size, qs, i)
  {
    var p := ps[i];
    if 0 != size && start + size <= p.start + p.size {
      var q := Part(start + size, p.start + p.size - (start + size), p.tag);
      if 0 == q.size {
        qs := ps[..i] + ps[i + 1..];
      } else {
        qs := ps[i := q];
      }
    } else {
      qs := ps[..i] + ps[i + 1..];
    }
  }

  /** The area starts inside the part: its front stays, and what is behind the area is taken for empty,
      since the part has been shortened by then. */
  method ClearBehind(ps: seq<Part>, i: nat, start: int, size: int) returns (qs: seq<Part>, next: nat)
    requires i < |ps| && 0 <= start && 0 <= size && ps[i].start < start < ps[i].start + ps[i].size
    requires forall k :: i <= k < |ps| ==> 0 < ps[k].size
    ensures ClearTurned(ps, i, start, size, qs, next)
  {
    var p := ps[i];
    var front := p.(size := start - p.start);
    if 0 == size || p.start + p.size <= start + size {
      qs, next := ps[i := front], i;
    } else {
      qs := ps[..i] + [front, MakePart(start + size, front.start + front.size - (start + size), p.tag)] + ps[i + 1..];
      next := i + 2;
    }
  }

  /** One turn of the clearing loop at the cursor i. */
  method ClearStep(ps: seq<Part>, i: nat, start: int, size: int) returns (qs: seq<Part>, next: nat)
    requires i < |ps| && 0 <= start && 0 <= size && (0 == size || ps[i].start < start + size)
    requires forall k :: i <= k < |ps| ==> 0 < ps[k].size
    ensures ClearTurned(ps, i, start, size, qs, next)
  {
    var p := ps[i];
    if start <= p.start {
      qs := ClearFront(ps, i, start, size);
      next := i;
    } else if start < p.start + p.size {
      qs, next := ClearBehind(ps, i, start, size);
    } else {
      qs, next := ps, i + 1;
    }
  }

  lemma InsertedBytes(ps: seq<Part>, i: nat, m: Part)
    requires i <= |ps|
    ensures Adds(ps, m.start, m.size, ps[..i] + [m] + ps[i..])
  {
    var qs := ps[..i] + [m] + ps[i..];
    forall b ensures Holds(qs, b) <==> Holds(ps, b) || m.start <= b < m.start + m.size {
      if k :| 0 <= k < |ps| && ps[k].Covers(b) {
        assert qs[if k < i then k else k + 1] == ps[k];
      }
      if m.Covers(b) { assert qs[i].Covers(b); }
      if k :| 0 <= k < |qs| && qs[k].Covers(b) {
        if k != i { assert ps[if k < i then k else k - 1].Covers(b); }
      }
    }
  }

  lemma InsertedResult(ps: seq<Part>, i: nat, start: int, size: int, tag: int)
    requires Separate(ps) && i <= |ps| && 0 <= start && 0 < size
    requires forall k :: 0 <= k < |ps| ==> ps[k].tag < tag
    requires forall k :: 0 <= k < i ==> ps[k].start + ps[k].size < start
    requires i < |ps| ==> start + size < ps[i].start
    ensures Placed(ps, start, size, tag, ps[..i] + [MakePart(start, size, tag)] + ps[i..])
  {
    InsertedBytes(ps, i, MakePart(start, size, tag));
    assert Newest(ps[..i] + [MakePart(start, size, tag)] + ps[i..], i, tag);
  }

  /** The outcome of AddPart on plain lists. */
  ghost predicate Placed(ps: seq<Part>, start: int, size: int, tag: int, qs: seq<Part>) {
    && Separate(qs) && Tagged(qs, tag) && Adds(ps, start, size, qs)
    && var k := FindTag(qs, tag);
       Newest(qs, k, tag) && qs[k].start <= start && start + size <= qs[k].start + qs[k].size
  }

  /** The merging loop of AddPart: part i takes the new area and then every following part it touches. */
  method Absorb(ps: seq<Part>, i: nat, start: int, size: int, tag: int) returns (qs: seq<Part>)
    requires Separate(ps) && i < |ps| && ps[i].Touches(start, size)
    requires forall k :: 0 <= k < |ps| ==> ps[k].tag < tag
    requires forall k :: 0 <= k < i ==> ps[k].start + ps[k].size < start
    ensures Placed(ps, start, size, tag, qs)
  {
    qs := ps[i := ps[i].Stretch(start, size, tag)];
    ghost var j := i + 1;
    while i + 1 < |qs| && qs[i].Touches(qs[i + 1].start, qs[i + 1].size)
      invariant i < j <= |ps| && i < |qs| && qs == ps[..i] + [qs[i]] + ps[j..]
      invariant Covered(ps, i, j, start, size, qs[i]) && qs[i].tag == tag
      invariant qs[i].start == if start < ps[i].start then start else ps[i].start
      decreases |ps| - j
    {
      AbsorbedList(ps, i, j, qs[i], qs);
      CoveredNext(ps, i, j, start, size, qs[i], tag);
      qs := qs[..i] + [qs[i].Stretch(qs[i + 1].start, qs[i + 1].size, tag)] + qs[i + 2..];
      j := j + 1;
    }
    AbsorbedList(ps, i, j, qs[i], qs);
    AbsorbedResult(ps, i, j, start, size, qs[i]);
  }

  lemma AbsorbedList(ps: seq<Part>, i: nat, j: nat, m: Part, qs: seq<Part>)
    requires i < j <= |ps| && qs == ps[..i] + [m] + ps[j..]
    ensures qs[..i] == ps[..i] && (i + 1 < |qs| <==> j < |ps|)
    ensures j < |ps| ==> qs[i + 1] == ps[j] && qs[i + 2..] == ps[j + 1..]
  {
  }

  lemma AbsorbedResult(ps: seq<Part>, i: nat, j: nat, start: int, size: int, m: Part)
    requires Separate(ps) && i < j && Covered(ps, i, j, start, size, m) && 0 < size
    requires m.start == if start < ps[i].start then start else ps[i].start
    requires forall k :: 0 <= k < |ps| ==> ps[k].tag < m.tag
    requires forall k :: 0 <= k < i ==> ps[k].start + ps[k].size < start
    requires j < |ps| ==> !m.Touches(ps[j].start, ps[j].size)
    ensures Placed(ps, start, size, m.tag, ps[..i] + [m] + ps[j..])
  {
    assert forall k :: j < k < |ps| ==> ps[j].start < ps[k].start;
    MergedResult(ps, i, j, start, size, m);
    assert Newest(ps[..i] + [m] + ps[j..], i, m.tag);
  }

  /** The area GetLastUpdatedPart yields is the head of a part, so clearing it is always exact. */
  lemma HeadNotStraddled(ps: seq<Part>, k: nat, size: int)
    requires Separate(ps) && k < |ps| && size <= ps[k].size
    ensures !Straddled(ps, ps[k].start, size)
  {
  }

  // ---- excluding an uploaded area (FdEntity::ReplaceLastUpdateUntreatedPart)

  /** Replaces the last updated part by what is left of it in front of and behind an uploaded area;
      nothing changes when no part carries the last tag. */
  method ReplaceLastUpdateUntreatedPart(u: UntreatedParts, frontStart: int, frontSize: int,
                                        behindStart: int, behindSize: int) returns (ok: bool)
    requires u.Valid() && CutsLast(u.list, u.lastTag, frontStart, frontSize, behindStart, behindSize)
    modifies u
    ensures u.Valid() && ok == (FindTag(old(u.list), old(u.lastTag)) < |old(u.list)|)
    ensures if ok then Removes(old(u.list), frontStart + frontSize, behindStart - (frontStart + frontSize), u.list)
            else u.list == old(u.list)
  {
    ghost var ps, k := u.list, FindTag(u.list, u.lastTag);
    ok := KeepFront(u, frontStart, frontSize);
    if !ok {
      return;
    }
    ghost var mid := u.list;
    if 0 < behindSize {
      ok := u.AddPart(behindStart, behindSize);
    }
    BehindAdded(ps, k, frontSize, mid, behindStart, behindSize, u.list);
  }

  /** The two areas are a head and a tail of the last updated part. */
  ghost predicate CutsLast(ps: seq<Part>, tag: int, frontStart: int, frontSize: int, behindStart: int,
                           behindSize: int) {
    var k := FindTag(ps, tag);
    k < |ps| ==>
      && frontStart == ps[k].start && 0 <= frontSize && frontStart + frontSize < behindStart
      && 0 <= behindSize && behindStart + behindSize == ps[k].start + ps[k].size
  }

  method KeepFront(u: UntreatedParts, frontStart: int, frontSize: int) returns (ok: bool)
    requires u.Valid()
    requires var k := FindTag(u.list, u.lastTag);
             k < |u.list| ==> frontStart == u.list[k].start && 0 <= frontSize < u.list[k].size
    modifies u
    ensures u.Valid() && ok == (FindTag(old(u.list), old(u.lastTag)) < |old(u.list)|)
    ensures if ok then Shortens(old(u.list), FindTag(old(u.list), old(u.lastTag)), frontSize, u.list)
            else u.list == old(u.list)
  {
    ghost var ps, k := u.list, FindTag(u.list, u.lastTag);
    if 0 < frontSize {
      ok := u.ReplaceLastUpdatePart(frontStart, frontSize);
    } else {
      ok := u.RemoveLastUpdatePart();
    }
    if ok { FrontKept(ps, k, u.lastTag, frontSize, u.list); }
  }

  /** qs is ps without the tail of part k from frontSize bytes on. */
  ghost predicate Shortens(ps: seq<Part>, k: nat, frontSize: int, qs: seq<Part>)
    requires k < |ps|
  {
    forall b :: Holds(qs, b) <==> Holds(ps, b) && !(ps[k].start + frontSize <= b < ps[k].start + ps[k].size)
  }

  lemma FrontKept(ps: seq<Part>, k: nat, t: int, frontSize: int, qs: seq<Part>)
    requires Separate(ps) && Tagged(ps, t) && k < |ps| && 0 <= frontSize < ps[k].size
    requires qs == if 0 < frontSize then ps[k := ps[k].(start := ps[k].start, size := frontSize)]
             else ps[..k] + ps[k + 1..]
    ensures Separate(qs) && Tagged(qs, t) && Shortens(ps, k, frontSize, qs)
  {
    FrontTags(ps, k, t, frontSize, qs);
    if 0 < frontSize {
      Trimmed(ps, k, frontSize);
    } else {
      Dropped(ps, k);
    }
  }

  lemma FrontTags(ps: seq<Part>, k: nat, t: int, frontSize: int, qs: seq<Part>)
    requires Tagged(ps, t) && k < |ps|
    requires qs == if 0 < frontSize then ps[k := ps[k].(start := ps[k].start, size := frontSize)]
             else ps[..k] + ps[k + 1..]
    ensures Tagged(qs, t)
  {
    forall i | 0 <= i < |qs| ensures qs[i].tag == ps[if frontSize <= 0 && k <= i then i + 1 else i].tag {
    }
  }

  lemma {:induction false} Trimmed(ps: seq<Part>, k: nat, frontSize: int)
    requires Separate(ps) && k < |ps| && 0 < frontSize < ps[k].size
    ensures var qs := ps[k := ps[k].(start := ps[k].start, size := frontSize)];
            Separate(qs) && Shortens(ps, k, frontSize, qs)
  {
    var qs := ps[k := ps[k].(start := ps[k].start, size := frontSize)];
    forall b ensures Holds(qs, b) <==> Holds(ps, b) && !(ps[k].start + frontSize <= b < ps[k].start + ps[k].size) {
      if j :| 0 <= j < |ps| && ps[j].Covers(b) {
        assert qs[j].Covers(b) || (j == k && ps[k].start + frontSize <= b);
      }
      if j :| 0 <= j < |qs| && qs[j].Covers(b) {
        assert ps[j].Covers(b);
        if j < k { assert ps[j].start + ps[j].size < ps[k].start; }
        if k < j { assert ps[k].start + ps[k].size < ps[j].start; }
      }
    }
  }

  lemma {:induction false} Dropped(ps: seq<Part>, k: nat)
    requires Separate(ps) && k < |ps|
    ensures var qs := ps[..k] + ps[k + 1..];
            Separate(qs) && Shortens(ps, k, 0, qs)
  {
    var qs := ps[..k] + ps[k + 1..];
    forall b ensures Holds(qs, b) <==> Holds(ps, b) && !(ps[k].start <= b < ps[k].start + ps[k].size) {
      if j :| 0 <= j < |ps| && ps[j].Covers(b) {
        if j != k { assert qs[if j < k then j else j - 1] == ps[j]; }
      }
      if j :| 0 <= j < |qs| && qs[j].Covers(b) {
        var i := if j < k then j else j + 1;
        assert ps[i].Covers(b);
        if i < k { assert ps[i].start + ps[i].size < ps[k].start; }
        if k < i { assert ps[k].start + ps[k].size < ps[i].start; }
      }
    }
  }

  lemma BehindAdded(ps: seq<Part>, k: nat, frontSize: int, mid: seq<Part>, behindStart: int, behindSize: int,
                    qs: seq<Part>)
    requires Separate(ps) && k < |ps| && 0 <= frontSize
    requires ps[k].start + frontSize < behindStart && 0 <= behindSize
             && behindStart + behindSize == ps[k].start + ps[k].size
    requires Shortens(ps, k, frontSize, mid)
    requires if 0 < behindSize then Adds(mid, behindStart, behindSize, qs) else qs == mid
    ensures Removes(ps, ps[k].start + frontSize, behindStart - (ps[k].start + frontSize), qs)
  {
    forall b
      ensures Holds(qs, b) <==>
                Holds(ps, b) && !InArea(b, ps[k].start + frontSize, behindStart - (ps[k].start + frontSize))
    {
      if behindStart <= b < behindStart + behindSize { assert ps[k].Covers(b); }
    }
  }
}
