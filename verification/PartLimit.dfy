/** How many requests a mixed upload makes, and a file for which the service refuses some. */
module PartLimits {
  import opened Limits
  import opened Pages
  import opened MixPlans

  /** The number of requests of a mixed upload (mix_multipart_upload_request of s3fs_threadreqs.cpp). */
  ghost function MixCount(pages: seq<Page>, max: int, copySize: int): nat
    requires 0 < max && MIN_MULTIPART_SIZE <= copySize
  {
    |Requests(MixUploads(pages, max), copySize)|
  }

  /** Fewer than 10,000 times 5 MB never need too many. */
  lemma SmallEnough(pages: seq<Page>, max: int, copySize: int)
    requires Chain(pages) && MIN_MULTIPART_SIZE <= max && MIN_MULTIPART_SIZE <= copySize
    ensures MixCount(pages, max, copySize) <= SizeOf(pages) / MIN_MULTIPART_SIZE + 1
    ensures SizeOf(pages) < MAX_MULTIPART_CNT * MIN_MULTIPART_SIZE ==>
              MixCount(pages, max, copySize) <= MAX_MULTIPART_CNT
  {
    var size := SizeOf(pages);
    UploadsTile(pages, max);
    FewRequests(MixUploads(pages, max), size, max, copySize);
    if size < MAX_MULTIPART_CNT * MIN_MULTIPART_SIZE { DivLess(size, MAX_MULTIPART_CNT, MIN_MULTIPART_SIZE); }
  }

  lemma UploadsTile(pages: seq<Page>, max: int)
    requires Chain(pages) && MIN_MULTIPART_SIZE <= max
    ensures MixTiles(MixUploads(pages, max), SizeOf(pages), max)
  {
    MixPlanKeeps(pages, max);
  }

  lemma FewRequests(up: seq<Page>, size: int, max: int, copySize: int)
    requires MIN_MULTIPART_SIZE <= copySize && MixTiles(up, size, max)
    ensures 0 <= size && |Requests(up, copySize)| <= size / MIN_MULTIPART_SIZE + 1
  {
    RequestsKeep(up, copySize, 2 * max);
    if Requests(up, copySize) != [] {
      MixPartCount(Requests(up, copySize));
    }
    if up != [] { LaidIndex(up, |up| - 1); }
  }

  /** A mixed flush meets no limit: neither the one it checks, the size of the file, nor the one of the
      service, the number of requests. */
  ghost predicate MixFits(pages: seq<Page>, m: int, copySize: int)
    requires 0 < m && MIN_MULTIPART_SIZE <= copySize
  {
    && SizeOf(pages) <= MAX_MULTIPART_CNT * m
    && (m <= SizeOf(pages) ==> MixCount(pages, m, copySize) <= MAX_MULTIPART_CNT)
  }

  lemma SmallFits(pages: seq<Page>, m: int, copySize: int)
    requires Chain(pages) && MIN_MULTIPART_SIZE <= m && MIN_MULTIPART_SIZE <= copySize
    ensures SizeOf(pages) < MAX_MULTIPART_CNT * MIN_MULTIPART_SIZE ==> MixFits(pages, m, copySize)
  {
    SmallEnough(pages, m, copySize);
  }

  /** Only the modified flags count. */
  lemma FlagsDecide(ps: seq<Page>, qs: seq<Page>, m: int, copySize: int)
    requires Chain(ps) && Chain(qs) && 0 < m && MIN_MULTIPART_SIZE <= copySize
    requires 0 <= SizeOf(ps) == SizeOf(qs)
    requires forall i :: 0 <= i < SizeOf(ps) ==> Flat(ps)[i].modified == Flat(qs)[i].modified
    ensures MixFits(ps, m, copySize) <==> MixFits(qs, m, copySize)
  {
    RunsOf(ps);
    RunsOf(qs);
    var a, c := Compressed(ps, IGNORE_LOAD), Compressed(qs, IGNORE_LOAD);
    if 0 < SizeOf(ps) {
      forall b | 0 <= b < SizeOf(a) ensures At(a, GAP, b) == At(c, GAP, b) {
        assert Flat(ps)[b].modified == Flat(qs)[b].modified;
      }
      CanonicalUnique(a, c, GAP);
    }
  }

  /** Every part needs a request of its own. */
  lemma {:induction false} RequestsAtLeast(ps: seq<Page>, copySize: int)
    requires MIN_MULTIPART_SIZE <= copySize && Positive(ps)
    ensures |ps| <= |Requests(ps, copySize)|
  {
    if ps != [] {
      RequestsAtLeast(ps[..|ps| - 1], copySize);
    }
  }

  // ---- a file of stripes

  /** n times a modified stretch of width bytes followed by an unmodified one up to period bytes. */
  ghost function Stripes(n: nat, period: int, width: int): seq<Page> {
    if n == 0 then []
    else
      Stripes(n - 1, period, width) +
      [Page((n - 1) * period, width, Status(true, true)),
       Page((n - 1) * period + width, period - width, Status(true, false))]
  }

  lemma {:induction false} StripesShape(n: nat, period: int, width: int)
    requires 0 < width < period
    ensures var ps := Stripes(n, period, width);
            && |ps| == 2 * n && Tight(ps) && Chain(ps) && SizeOf(ps) == n * period
            && (n > 0 ==> !ps[|ps| - 1].st.modified)
  {
    if n > 0 {
      StripesShape(n - 1, period, width);
      MulLe(n - 1, n, period);
      MulLe(0, n - 1, period);
      var front := Stripes(n - 1, period, width);
      var p := Page((n - 1) * period, width, Status(true, true));
      var q := Page((n - 1) * period + width, period - width, Status(true, false));
      assert Stripes(n, period, width) == (front + [p]) + [q];
      TightPush(front, p);
      TightPush(front + [p], q);
      ContiguousLaid((front + [p]) + [q]);
    }
  }

  /** Which bytes stripe k has written. */
  lemma {:induction false} StripeAt(n: nat, period: int, width: int, k: nat, b: int)
    requires 0 < width < period && k < n && k * period <= b < k * period + period
    ensures At(Stripes(n, period, width), GAP, b).modified <==> b < k * period + width
  {
    StripesShape(n, period, width);
    StripesPage(n, period, width, k);
    AtIndex(Stripes(n, period, width), GAP, if b < k * period + width then 2 * k else 2 * k + 1, b);
  }

  lemma {:induction false} StripesPage(n: nat, period: int, width: int, k: nat)
    requires 0 < width < period && k < n
    ensures var ps := Stripes(n, period, width);
            && |ps| == 2 * n
            && ps[2 * k] == Page(k * period, width, Status(true, true))
            && ps[2 * k + 1] == Page(k * period + width, period - width, Status(true, false))
  {
    StripesShape(n, period, width);
    StripesShape(n - 1, period, width);
    if k < n - 1 {
      StripesPage(n - 1, period, width, k);
    }
  }

  /** Every plan has a part of its own for each stretch: part i holds the last byte of stripe k. */
  lemma {:induction false} StripeParts(n: nat, period: int, width: int, dl: seq<Page>, up: seq<Page>, k: nat)
    returns (i: nat)
    requires 0 < width && width + 2 * MIN_MULTIPART_SIZE < period && k < n
    requires Chain(up) && Positive(up) && SizeOf(up) == n * period
    requires MixSound(Stripes(n, period, width), dl, up) && MixThrift(Stripes(n, period, width), up)
    ensures 2 * k + 1 <= i < |up| && up[i].Covers(k * period + period - 1) && !up[i].st.modified
  {
    StripeEnds(n, period, width, dl, up, k);
    StripePlace(n, period, width, k);
    StripesSize(n, period, width);
    var first, last := k * period, k * period + period - 1;
    var j := CoverIndex(up, first);
    i := CoverIndex(up, last);
    AtIndex(up, GAP, j, first);
    AtIndex(up, GAP, i, last);
    LaterPart(up, j, first, i, last);
    if k > 0 {
      var h := StripeParts(n, period, width, dl, up, k - 1);
      assert (k - 1) * period + period == k * period;
      LaterPart(up, h, first - 1, j, first);
    }
  }

  lemma StripesSize(n: nat, period: int, width: int)
    requires 0 < width < period
    ensures SizeOf(Stripes(n, period, width)) == n * period
  {
    StripesShape(n, period, width);
  }

  /** Parts that hold different bytes and are not of one kind are different parts, in the order of the bytes. */
  lemma LaterPart(up: seq<Page>, j: nat, x: int, i: nat, y: int)
    requires Laid(up) && j < |up| && i < |up| && up[j].Covers(x) && up[i].Covers(y)
    requires x < y && up[j].st.modified != up[i].st.modified
    ensures j < i
  {
    if i < j { LaidOrder(up, i, j); }
  }

  lemma StripeEnds(n: nat, period: int, width: int, dl: seq<Page>, up: seq<Page>, k: nat)
    requires 0 < width && width + 2 * MIN_MULTIPART_SIZE < period && k < n
    requires MixSound(Stripes(n, period, width), dl, up) && MixThrift(Stripes(n, period, width), up)
    ensures At(up, GAP, k * period).modified && !At(up, GAP, k * period + period - 1).modified
  {
    HeadSent(n, period, width, dl, up, k);
    StripeTail(n, period, width, k);
    StripePlace(n, period, width, k);
    TailKept(Stripes(n, period, width), up, k * period + width, k * period + period);
  }

  lemma StripePlace(n: nat, period: int, width: int, k: nat)
    requires 0 < width < period && k < n
    ensures 0 <= k * period && k * period + period <= SizeOf(Stripes(n, period, width))
  {
    StripesShape(n, period, width);
    MulLe(0, k, period);
    MulLe(k + 1, n, period);
  }

  lemma {:induction false} HeadSent(n: nat, period: int, width: int, dl: seq<Page>, up: seq<Page>, k: nat)
    requires 0 < width < period && k < n && MixSound(Stripes(n, period, width), dl, up)
    ensures At(up, GAP, k * period).modified
  {
    StripePlace(n, period, width, k);
    StripeAt(n, period, width, k, k * period);
  }

  lemma StripeTail(n: nat, period: int, width: int, k: nat)
    requires 0 < width < period && k < n
    ensures Untouched(Stripes(n, period, width), k * period + width, k * period + period)
  {
    forall b | k * period + width <= b < k * period + period
      ensures !At(Stripes(n, period, width), GAP, b).modified
    {
      StripeAt(n, period, width, k, b);
    }
  }

  lemma TailKept(ps: seq<Page>, up: seq<Page>, from: int, to: int)
    requires MixThrift(ps, up) && Untouched(ps, from, to)
    requires 0 <= from && to <= SizeOf(ps) && 2 * MIN_MULTIPART_SIZE < to - from
    ensures !At(up, GAP, to - 1).modified
  {
  }

  const STRIPE: int := 16 * 1024 * 1024

  /** A file of stripes of 16 MB, 5 MB of each written: two requests a stripe, whatever the part size.
      From 5001 stripes on, 80 GB, the service refuses some of them. */
  lemma StripedCount(n: nat, max: int, copySize: int)
    requires MIN_MULTIPART_SIZE <= max && MIN_MULTIPART_SIZE <= copySize
    ensures 2 * n <= MixCount(Stripes(n, STRIPE, MIN_MULTIPART_SIZE), max, copySize)
  {
    var ps := Stripes(n, STRIPE, MIN_MULTIPART_SIZE);
    StripesShape(n, STRIPE, MIN_MULTIPART_SIZE);
    MixPlanKeeps(ps, max);
    var dl, up := MixFetches(ps, max), MixUploads(ps, max);
    RequestsAtLeast(up, copySize);
    if n > 0 {
      var i := StripeParts(n, STRIPE, MIN_MULTIPART_SIZE, dl, up, n - 1);
    }
  }

  /** With parts of 10 MB, 6250 stripes are a file that the check of its size lets pass. */
  lemma GuardPasses(copySize: int) returns (pages: seq<Page>, max: int)
    requires MIN_MULTIPART_SIZE <= copySize
    ensures Tight(pages) && Chain(pages) && MIN_MULTIPART_SIZE <= max
    ensures 0 < SizeOf(pages) <= MAX_MULTIPART_CNT * max && MAX_MULTIPART_CNT < MixCount(pages, max, copySize)
  {
    var n: nat :| n == 6250;
    max := 2 * MIN_MULTIPART_SIZE;
    pages := Stripes(n, STRIPE, MIN_MULTIPART_SIZE);
    StripesShape(n, STRIPE, MIN_MULTIPART_SIZE);
    StripedCount(n, max, copySize);
  }
}
