/** The copying compression, the splitting of large pages, and the plan of a mixed upload
    (parts sent from the cache file between parts copied from the old object) of fdcache_page.cpp. */
module MixPlans {
  import opened Limits
  import opened Pages

  // ---- raw_compress_fdpage_list

  /** The flag arguments of the copying compression. */
  datatype Mode = Mode(ignoreLoad: bool, ignoreModify: bool, defaultLoad: bool, defaultModify: bool) {
    function Apply(st: Status): Status {
      Status(if ignoreLoad then defaultLoad else st.loaded,
             if ignoreModify then defaultModify else st.modified)
    }
  }

  const IGNORE_LOAD := Mode(true, false, false, false)
  const IGNORE_MODIFY := Mode(false, true, false, false)
  const IGNORE_NOTHING := Mode(false, false, false, false)

  /** The non-empty pages of ps under the statuses the mode gives them. */
  ghost function Prepared(ps: seq<Page>, m: Mode): seq<Page> {
    if ps == [] then []
    else
      var front, p := Prepared(ps[..|ps| - 1], m), ps[|ps| - 1];
      if p.bytes == 0 then front else front + [p.(st := m.Apply(p.st))]
  }

  ghost function Compressed(ps: seq<Page>, m: Mode): seq<Page> {
    Compact(Prepared(ps, m), m.Apply(GAP))
  }

  /** The last page shows the flags the mode prescribes. */
  ghost predicate InMode(out: seq<Page>, m: Mode) {
    out != [] && m.Apply(out[|out| - 1].st) == out[|out| - 1].st
  }

  /** One step of the copying compression, the page p (not empty) behind out: first the hole. */
  method FillCompressed(out: seq<Page>, upto: int, m: Mode) returns (r: seq<Page>)
    requires InMode(out, m)
    ensures r == Fill(out, upto, m.Apply(GAP)) && InMode(r, m)
  {
    r := out;
    var last := r[|r| - 1];
    if last.offset + last.bytes != upto {
      if (!m.ignoreLoad && last.st.loaded) || (!m.ignoreModify && last.st.modified) {
        var hole := Page(last.offset + last.bytes, upto - (last.offset + last.bytes), GAP);
        r := r + [hole.(st := m.Apply(hole.st))];
      } else {
        r := r[..|r| - 1] + [last.(bytes := upto - last.offset)];
      }
    }
  }

  /** Then the page itself. */
  method JoinCompressed(out: seq<Page>, p: Page, m: Mode) returns (r: seq<Page>)
    requires InMode(out, m)
    ensures r == Join(out, p.(st := m.Apply(p.st))) && InMode(r, m)
  {
    r := out;
    var last := r[|r| - 1];
    if (!m.ignoreLoad && last.st.loaded != p.st.loaded) || (!m.ignoreModify && last.st.modified != p.st.modified) {
      r := r + [p.(st := m.Apply(p.st))];
    } else {
      r := r[..|r| - 1] + [last.(bytes := last.bytes + p.bytes)];
    }
  }

  method RawCompress(pages: seq<Page>, m: Mode) returns (out: seq<Page>)
    ensures out == Compressed(pages, m)
  {
    out := [];
    for k := 0 to |pages|
      invariant out == Compressed(pages[..k], m)
      invariant out != [] ==> InMode(out, m)
    {
      var p := pages[k];
      ghost var before := Prepared(pages[..k], m);
      assert pages[..k + 1][..k] == pages[..k];
      if 0 != p.bytes {
        var q := p.(st := m.Apply(p.st));
        assert (before + [q])[..|before|] == before;
        if out == [] {
          out := [q];
        } else {
          out := FillCompressed(out, p.offset, m);
          out := JoinCompressed(out, p, m);
        }
      }
    }
    assert pages[..|pages|] == pages;
  }

  lemma {:induction false} PreparedAt(ps: seq<Page>, m: Mode)
    requires Laid(ps)
    ensures var r := Prepared(ps, m);
            && Laid(r) && Positive(r) && SizeOf(r) <= SizeOf(ps) && 0 <= SizeOf(ps)
            && forall b :: At(r, m.Apply(GAP), b) == m.Apply(At(ps, GAP, b))
  {
    if ps != [] {
      var front, p := ps[..|ps| - 1], ps[|ps| - 1];
      PreparedAt(front, m);
      if p.bytes != 0 {
        var q := p.(st := m.Apply(p.st));
        LaidPush(Prepared(front, m), q);
        AtPush(Prepared(front, m), q, m.Apply(GAP));
      }
    }
  }

  /** The copying compression reaches the canonical form of the byte map seen through the mode. */
  lemma CompressedKeeps(ps: seq<Page>, m: Mode)
    requires Laid(ps)
    ensures var r := Compressed(ps, m);
            && Tight(r) && Laid(r)
            && forall b :: At(r, m.Apply(GAP), b) == m.Apply(At(ps, GAP, b))
  {
    PreparedAt(ps, m);
    CompactKeeps(Prepared(ps, m), m.Apply(GAP));
    if Compressed(ps, m) != [] {
      LaidIndex(Prepared(ps, m), 0);
      ContiguousLaid(Compressed(ps, m));
    }
  }

  /** Pages that follow each other from byte 0, empty ones allowed. */
  ghost predicate Chain(ps: seq<Page>) {
    Laid(ps) && Contiguous(ps) && (ps != [] ==> ps[0].offset == 0)
  }

  lemma ChainFront(ps: seq<Page>)
    requires Chain(ps) && ps != []
    ensures var front, p := ps[..|ps| - 1], ps[|ps| - 1];
            Chain(front) && 0 <= p.offset == SizeOf(front)
  {
    LaidIndex(ps, |ps| - 1);
  }

  lemma {:induction false} PreparedChain(ps: seq<Page>, m: Mode)
    requires Chain(ps)
    ensures Chain(Prepared(ps, m)) && SizeOf(Prepared(ps, m)) == SizeOf(ps)
  {
    if ps != [] {
      var front, p := ps[..|ps| - 1], ps[|ps| - 1];
      PreparedChain(front, m);
      if p.bytes != 0 {
        LaidPush(Prepared(front, m), p.(st := m.Apply(p.st)));
        ContiguousPush(Prepared(front, m), p.(st := m.Apply(p.st)));
      }
    }
  }

  lemma CompressedChain(ps: seq<Page>, m: Mode)
    requires Chain(ps)
    ensures var r := Compressed(ps, m);
            && Tight(r) && Chain(r) && SizeOf(r) == SizeOf(ps)
            && forall b :: At(r, m.Apply(GAP), b) == m.Apply(At(ps, GAP, b))
  {
    CompressedKeeps(ps, m);
    PreparedChain(ps, m);
    PreparedAt(ps, m);
    CompactKeeps(Prepared(ps, m), m.Apply(GAP));
  }

  /** Without ignored flags the copying compression and the in-place one agree. */
  lemma {:induction false} PreparedSame(ps: seq<Page>)
    requires Positive(ps)
    ensures Prepared(ps, IGNORE_NOTHING) == ps
  {
    if ps != [] {
      PreparedSame(ps[..|ps| - 1]);
      var p := ps[|ps| - 1];
      assert p.(st := IGNORE_NOTHING.Apply(p.st)) == p;
    }
  }

  /** For sorted disjoint non-empty pages both compressions give one and the same list, and any
      canonical list with the same byte map over the same extent is that list. */
  lemma CompressionsAgree(ps: seq<Page>, qs: seq<Page>)
    requires Laid(ps) && Positive(ps) && ps != []
    requires Tight(qs) && qs != [] && qs[0].offset == ps[0].offset && SizeOf(qs) == SizeOf(ps)
    requires forall b :: ps[0].offset <= b < SizeOf(ps) ==> At(qs, GAP, b) == At(ps, GAP, b)
    ensures Compressed(ps, IGNORE_NOTHING) == Compact(ps, GAP) == qs
  {
    PreparedSame(ps);
    CompactKeeps(ps, GAP);
    LaidIndex(ps, 0);
    CanonicalUnique(Compact(ps, GAP), qs, GAP);
  }

  // ---- parse_partsize_fdpage_list

  /** Page p in pieces of max bytes; a rest of up to twice max stays whole. */
  function Pieces(p: Page, max: int): seq<Page>
    requires 0 < max
    decreases p.bytes
  {
    if p.bytes <= 0 then []
    else if max * 2 < p.bytes then
      [p.(bytes := max)] + Pieces(p.(offset := p.offset + max, bytes := p.bytes - max), max)
    else [p]
  }

  /** Every piece but the last has max bytes, and the last is longer, up to twice that. */
  lemma {:induction false} PiecesEven(p: Page, max: int, k: nat)
    requires 0 < max && k < |Pieces(p, max)|
    ensures var q := Pieces(p, max)[k];
            if k < |Pieces(p, max)| - 1 then q.bytes == max
            else q.bytes <= 2 * max && (0 < k ==> max < q.bytes) && q.offset + q.bytes == p.offset + p.bytes
    decreases k
  {
    if max * 2 < p.bytes && 0 < k {
      PiecesEven(p.(offset := p.offset + max, bytes := p.bytes - max), max, k - 1);
    } else if max * 2 < p.bytes {
      assert 0 < |Pieces(p.(offset := p.offset + max, bytes := p.bytes - max), max)|;
    }
  }

  ghost function PiecesOf(p: Page, max: int): seq<Page>
    requires 0 < max
  {
    if p.st.modified then Pieces(p, max) else [p]
  }

  ghost function Parsed(ps: seq<Page>, max: int): seq<Page>
    requires 0 < max
  {
    if ps == [] then []
    else
      var p := ps[|ps| - 1];
      Parsed(ps[..|ps| - 1], max) + PiecesOf(p, max)
  }

  method ParsePartsize(pages: seq<Page>, max: int) returns (out: seq<Page>)
    requires 0 < max
    ensures out == Parsed(pages, max)
  {
    out := [];
    for k := 0 to |pages|
      invariant out == Parsed(pages[..k], max)
    {
      ghost var before := out;
      var p := pages[k];
      assert pages[..k + 1][..k] == pages[..k];
      if p.st.modified {
        var start, rest := p.offset, p.bytes;
        while 0 < rest
          invariant before + Pieces(p, max) == out + Pieces(p.(offset := start, bytes := rest), max)
        {
          if max * 2 < rest {
            out := out + [p.(offset := start, bytes := max)];
            start, rest := start + max, rest - max;
          } else {
            out := out + [p.(offset := start, bytes := rest)];
            start, rest := start + rest, 0;
          }
        }
      } else {
        out := out + [p];
      }
    }
    assert pages[..|pages|] == pages;
  }

  /** Every page, the last one excepted, reaches lo bytes. */
  ghost predicate LargeButLast(ps: seq<Page>, lo: int) {
    forall k :: 0 <= k < |ps| - 1 ==> lo <= ps[k].bytes
  }

  ghost predicate UploadsAtMost(ps: seq<Page>, hi: int) {
    forall k :: 0 <= k < |ps| && ps[k].st.modified ==> ps[k].bytes <= hi
  }

  /** qs replaces page p: same extent, same status everywhere. */
  ghost predicate Replaces(qs: seq<Page>, p: Page) {
    && qs != [] && Positive(qs) && Contiguous(qs)
    && qs[0].offset == p.offset && SizeOf(qs) == p.offset + p.bytes
    && forall k :: 0 <= k < |qs| ==> qs[k].st == p.st
  }

  lemma {:induction false} PiecesReplace(p: Page, max: int)
    requires 0 < max && 0 < p.bytes
    ensures Replaces(Pieces(p, max), p)
    ensures UploadsAtMost(Pieces(p, max), 2 * max)
    ensures max <= p.bytes ==> forall k :: 0 <= k < |Pieces(p, max)| ==> max <= Pieces(p, max)[k].bytes
    ensures p.bytes <= 2 * max ==> Pieces(p, max) == [p]
    decreases p.bytes
  {
    if max * 2 < p.bytes {
      var rest := p.(offset := p.offset + max, bytes := p.bytes - max);
      PiecesReplace(rest, max);
      ContiguousConcat([p.(bytes := max)], Pieces(rest, max));
    }
  }

  lemma PiecesOfReplace(p: Page, max: int)
    requires 0 < max && 0 < p.bytes
    ensures Replaces(PiecesOf(p, max), p) && UploadsAtMost(PiecesOf(p, max), 2 * max)
    ensures PiecesOf(p, max) == [p] || forall k :: 0 <= k < |PiecesOf(p, max)| ==> max <= PiecesOf(p, max)[k].bytes
  {
    PiecesReplace(p, max);
  }

  lemma ReplacesAt(front: seq<Page>, qs: seq<Page>, p: Page)
    requires Replaces(qs, p) && 0 <= p.offset
    ensures forall b :: At(front + qs, GAP, b) == At(front + [p], GAP, b)
  {
    ContiguousLaid(qs);
    forall b ensures At(front + qs, GAP, b) == At(front + [p], GAP, b) {
      AtConcat(front, qs, GAP, b);
      AtPush(front, p, GAP);
      if p.Covers(b) {
        var k := CoverIndex(qs, b);
        AtIndex(qs, At(front, GAP, b), k, b);
      } else {
        AtNone(qs, At(front, GAP, b), b);
      }
    }
  }

  /** r is ps with pages split: the same extent and statuses, uploads of at most hi bytes, and
      pieces of at least lo bytes where ps had pages of at least lo bytes. */
  ghost predicate Splits(ps: seq<Page>, r: seq<Page>, hi: int, lo: int) {
    && Positive(r) && Chain(r) && SizeOf(r) == SizeOf(ps) && (r == [] <==> ps == [])
    && LargeButLast(r, lo) && UploadsAtMost(r, hi)
    && (ps != [] && lo <= ps[|ps| - 1].bytes ==> lo <= r[|r| - 1].bytes)
    && SameStatuses(ps, r)
  }

  ghost predicate SameStatuses(ps: seq<Page>, r: seq<Page>) {
    forall b :: At(r, GAP, b) == At(ps, GAP, b)
  }

  lemma {:induction false} ParsedKeeps(ps: seq<Page>, max: int, lo: int)
    requires 0 < lo <= max && Positive(ps) && Chain(ps) && LargeButLast(ps, lo)
    ensures Splits(ps, Parsed(ps, max), 2 * max, lo)
  {
    if ps != [] {
      ChainFront(ps);
      ParsedKeeps(ps[..|ps| - 1], max, lo);
      PiecesOfReplace(ps[|ps| - 1], max);
      SplitsPush(ps, Parsed(ps[..|ps| - 1], max), PiecesOf(ps[|ps| - 1], max), 2 * max, lo);
    }
  }

  lemma SplitsPush(ps: seq<Page>, done: seq<Page>, qs: seq<Page>, hi: int, lo: int)
    requires 0 < lo && Chain(ps) && Positive(ps) && LargeButLast(ps, lo) && ps != []
    requires Splits(ps[..|ps| - 1], done, hi, lo) && Replaces(qs, ps[|ps| - 1])
    requires UploadsAtMost(qs, hi)
    requires qs == [ps[|ps| - 1]] || forall k :: 0 <= k < |qs| ==> lo <= qs[k].bytes
    ensures Splits(ps, done + qs, hi, lo)
  {
    ChainFront(ps);
    SplitsShape(done, ps[|ps| - 1], qs, hi, lo);
    SplitsAt(ps, done, qs);
  }

  lemma SplitsShape(done: seq<Page>, p: Page, qs: seq<Page>, hi: int, lo: int)
    requires 0 < lo && Replaces(qs, p) && 0 < p.bytes && SizeOf(done) == p.offset
    requires Positive(done) && Chain(done) && LargeButLast(done, lo) && (done != [] ==> lo <= done[|done| - 1].bytes)
    requires UploadsAtMost(done, hi) && UploadsAtMost(qs, hi)
    requires qs == [p] || forall k :: 0 <= k < |qs| ==> lo <= qs[k].bytes
    ensures var r := done + qs;
            && Positive(r) && Chain(r) && LargeButLast(r, lo) && UploadsAtMost(r, hi)
            && SizeOf(r) == p.offset + p.bytes && (lo <= p.bytes ==> lo <= r[|r| - 1].bytes)
  {
    ContiguousConcat(done, qs);
    ContiguousLaid(done + qs);
    LargeConcat(done, qs, lo);
  }

  lemma LargeConcat(done: seq<Page>, qs: seq<Page>, lo: int)
    requires LargeButLast(done, lo) && (done != [] ==> lo <= done[|done| - 1].bytes) && LargeButLast(qs, lo)
    ensures LargeButLast(done + qs, lo)
  {
  }

  lemma SplitsAt(ps: seq<Page>, done: seq<Page>, qs: seq<Page>)
    requires ps != [] && Replaces(qs, ps[|ps| - 1]) && 0 <= ps[|ps| - 1].offset
    requires SameStatuses(ps[..|ps| - 1], done)
    ensures SameStatuses(ps, done + qs)
  {
    ReplacesAt(done, qs, ps[|ps| - 1]);
    AtPush(done, ps[|ps| - 1], GAP);
  }

  // ---- the requests of a mixed upload (mix_multipart_upload_request of s3fs_threadreqs.cpp)

  /** The size of the next copy request when rest bytes of a copied page remain. */
  function RequestBytes(rest: int, copySize: int): (r: int)
    requires 0 < rest && MIN_MULTIPART_SIZE <= copySize
    ensures 0 < r <= rest && r < copySize + MIN_MULTIPART_SIZE
    ensures rest <= copySize ==> r == rest
    ensures copySize + MIN_MULTIPART_SIZE <= rest ==> r == copySize
    // no small remainder is left: it is copied along, or in two halves if that is too much
    ensures copySize < rest < copySize + MIN_MULTIPART_SIZE ==>
              if rest <= FIVE_GB then r == rest else 2 * r <= rest <= 2 * r + 1
  {
    var request := if copySize < rest then copySize else rest;
    var remain := rest - request;
    if 0 < remain && remain < MIN_MULTIPART_SIZE then
      if FIVE_GB < request + remain then (request + remain) / 2 else request + remain
    else request
  }

  function CopyPieces(p: Page, copySize: int): seq<Page>
    requires MIN_MULTIPART_SIZE <= copySize
    decreases p.bytes
  {
    if p.bytes <= 0 then []
    else
      var n := RequestBytes(p.bytes, copySize);
      [p.(bytes := n)] + CopyPieces(p.(offset := p.offset + n, bytes := p.bytes - n), copySize)
  }

  ghost function RequestsOf(p: Page, copySize: int): seq<Page>
    requires MIN_MULTIPART_SIZE <= copySize
  {
    if p.st.modified then [p] else CopyPieces(p, copySize)
  }

  ghost function Requests(ps: seq<Page>, copySize: int): seq<Page>
    requires MIN_MULTIPART_SIZE <= copySize
  {
    if ps == [] then [] else Requests(ps[..|ps| - 1], copySize) + RequestsOf(ps[|ps| - 1], copySize)
  }

  /** One request per modified page, one or more per copied page; request k gets part number k + 1. */
  method MixRequests(mixuppages: seq<Page>, copySize: int) returns (reqs: seq<Page>)
    requires MIN_MULTIPART_SIZE <= copySize
    ensures reqs == Requests(mixuppages, copySize)
  {
    reqs := [];
    for k := 0 to |mixuppages|
      invariant reqs == Requests(mixuppages[..k], copySize)
    {
      var p := mixuppages[k];
      assert mixuppages[..k + 1][..k] == mixuppages[..k];
      if p.st.modified {
        reqs := reqs + [p];
      } else {
        var pieces := CutCopyPage(p, copySize);
        reqs := reqs + pieces;
      }
    }
    assert mixuppages[..|mixuppages|] == mixuppages;
  }

  /** What is left of a page behind its first bytes. */
  function RestOf(p: Page, processed: int): Page {
    p.(offset := p.offset + processed, bytes := p.bytes - processed)
  }

  method CutCopyPage(p: Page, copySize: int) returns (pieces: seq<Page>)
    requires MIN_MULTIPART_SIZE <= copySize
    ensures pieces == CopyPieces(p, copySize)
  {
    pieces := [];
    var processed := 0;
    assert RestOf(p, 0) == p;
    while processed < p.bytes
      invariant 0 <= processed && pieces + CopyPieces(RestOf(p, processed), copySize) == CopyPieces(p, copySize)
      decreases p.bytes - processed
    {
      var n := RequestBytes(p.bytes - processed, copySize);
      NextPiece(pieces, p, processed, copySize);
      pieces := pieces + [RestOf(p, processed).(bytes := n)];
      processed := processed + n;
    }
  }

  lemma {:induction false} NextPiece(pieces: seq<Page>, p: Page, processed: int, copySize: int)
    requires MIN_MULTIPART_SIZE <= copySize && 0 <= processed < p.bytes
    ensures var n := RequestBytes(p.bytes - processed, copySize);
            (pieces + [RestOf(p, processed).(bytes := n)]) + CopyPieces(RestOf(p, processed + n), copySize) ==
              pieces + CopyPieces(RestOf(p, processed), copySize)
  {
    var n, rest := RequestBytes(p.bytes - processed, copySize), RestOf(p, processed);
    var tail := CopyPieces(RestOf(p, processed + n), copySize);
    assert rest.(offset := rest.offset + n, bytes := rest.bytes - n) == RestOf(p, processed + n);
    assert (pieces + [rest.(bytes := n)]) + tail == pieces + ([rest.(bytes := n)] + tail);
  }

  /** The upper limit of a copy request: 5 GB, or the configured size if that is larger. */
  ghost function CopyLimit(copySize: int): int {
    if FIVE_GB < copySize then copySize else FIVE_GB
  }

  ghost predicate CopiesAtMost(ps: seq<Page>, hi: int) {
    forall k :: 0 <= k < |ps| && !ps[k].st.modified ==> ps[k].bytes <= hi
  }

  lemma {:induction false} CopyPiecesReplace(p: Page, copySize: int)
    requires MIN_MULTIPART_SIZE <= copySize && 0 < p.bytes
    ensures var qs := CopyPieces(p, copySize);
            && Replaces(qs, p)
            && (forall k :: 0 <= k < |qs| ==> qs[k].bytes <= CopyLimit(copySize))
            && (qs == [p] || forall k :: 0 <= k < |qs| ==> MIN_MULTIPART_SIZE <= qs[k].bytes)
  {
    CopyPiecesShape(p, copySize);
    CopyPiecesSizes(p, copySize);
  }

  lemma {:induction false} CopyPiecesShape(p: Page, copySize: int)
    requires MIN_MULTIPART_SIZE <= copySize && 0 < p.bytes
    ensures Replaces(CopyPieces(p, copySize), p)
    decreases p.bytes
  {
    var n := RequestBytes(p.bytes, copySize);
    var rest := p.(offset := p.offset + n, bytes := p.bytes - n);
    if n < p.bytes {
      CopyPiecesShape(rest, copySize);
      ContiguousConcat([p.(bytes := n)], CopyPieces(rest, copySize));
    } else {
      assert CopyPieces(rest, copySize) == [];
    }
  }

  lemma {:induction false} CopyPiecesSizes(p: Page, copySize: int)
    requires MIN_MULTIPART_SIZE <= copySize && 0 < p.bytes
    ensures var qs := CopyPieces(p, copySize);
            && (forall k :: 0 <= k < |qs| ==> qs[k].bytes <= CopyLimit(copySize))
            && (qs == [p] || forall k :: 0 <= k < |qs| ==> MIN_MULTIPART_SIZE <= qs[k].bytes)
    decreases p.bytes
  {
    var n := RequestBytes(p.bytes, copySize);
    var rest := p.(offset := p.offset + n, bytes := p.bytes - n);
    if n < p.bytes {
      CopyPiecesSizes(rest, copySize);
    } else {
      assert CopyPieces(rest, copySize) == [];
    }
  }

  /** The requests of a valid plan tile the file like the plan does, every one but the last has at
      least 5 MB, uploads stay within twice the part size, and copies within the copy limit. */
  lemma {:induction false} RequestsKeep(ps: seq<Page>, copySize: int, hi: int)
    requires MIN_MULTIPART_SIZE <= copySize
    requires Positive(ps) && Chain(ps) && LargeButLast(ps, MIN_MULTIPART_SIZE) && UploadsAtMost(ps, hi)
    ensures Splits(ps, Requests(ps, copySize), hi, MIN_MULTIPART_SIZE)
    ensures CopiesAtMost(Requests(ps, copySize), CopyLimit(copySize))
  {
    RequestsSplit(ps, copySize, hi);
    RequestsCopy(ps, copySize);
  }

  lemma {:induction false} RequestsCopy(ps: seq<Page>, copySize: int)
    requires MIN_MULTIPART_SIZE <= copySize && Positive(ps)
    ensures CopiesAtMost(Requests(ps, copySize), CopyLimit(copySize))
  {
    if ps != [] {
      RequestsCopy(ps[..|ps| - 1], copySize);
      if !ps[|ps| - 1].st.modified { CopyPiecesSizes(ps[|ps| - 1], copySize); }
    }
  }

  lemma {:induction false} RequestsSplit(ps: seq<Page>, copySize: int, hi: int)
    requires MIN_MULTIPART_SIZE <= copySize
    requires Positive(ps) && Chain(ps) && LargeButLast(ps, MIN_MULTIPART_SIZE) && UploadsAtMost(ps, hi)
    ensures Splits(ps, Requests(ps, copySize), hi, MIN_MULTIPART_SIZE)
  {
    if ps != [] {
      var p := ps[|ps| - 1];
      ChainFront(ps);
      RequestsSplit(ps[..|ps| - 1], copySize, hi);
      RequestsOfReplace(p, copySize, hi);
      SplitsPush(ps, Requests(ps[..|ps| - 1], copySize), RequestsOf(p, copySize), hi, MIN_MULTIPART_SIZE);
    }
  }

  lemma RequestsOfReplace(p: Page, copySize: int, hi: int)
    requires MIN_MULTIPART_SIZE <= copySize && 0 < p.bytes && (p.st.modified ==> p.bytes <= hi)
    ensures var qs := RequestsOf(p, copySize);
            && Replaces(qs, p) && UploadsAtMost(qs, hi) && CopiesAtMost(qs, CopyLimit(copySize))
            && (qs == [p] || forall k :: 0 <= k < |qs| ==> MIN_MULTIPART_SIZE <= qs[k].bytes)
  {
    if !p.st.modified {
      CopyPiecesReplace(p, copySize);
    }
  }

  // ---- the plan of a mixed upload

  /** The planner's state: the parts fixed so far, the part being grown behind them, and the
      areas that have to be fetched because they became part of an upload. */
  datatype MixState = MixState(up: seq<Page>, prev: Page, down: seq<Page>)

  /** Looks at the next run of equally modified or unmodified bytes. */
  function MixStep(st: MixState, iter: Page): MixState {
    var prev := st.prev;
    var grown := st.(prev := prev.(bytes := prev.bytes + iter.bytes));
    if iter.st.modified then
      if prev.st.modified then grown
      else if prev.bytes < MIN_MULTIPART_SIZE then
        // too short to be copied: fetched and uploaded
        MixState(st.up + [prev.(st := Status(prev.st.loaded, true))], iter, st.down + [prev])
      else MixState(st.up + [prev], iter, st.down)
    else if !prev.st.modified then grown
    else if prev.bytes < MIN_MULTIPART_SIZE then
      var missing := MIN_MULTIPART_SIZE - prev.bytes;
      if missing + MIN_MULTIPART_SIZE < iter.bytes then
        // the upload borrows what it lacks from the head of this run
        MixState(st.up + [prev.(bytes := MIN_MULTIPART_SIZE)],
                 iter.(offset := iter.offset + missing, bytes := iter.bytes - missing),
                 st.down + [Page(iter.offset, missing, GAP)])
      else grown.(down := st.down + [iter])
    else MixState(st.up + [prev], iter, st.down)
  }

  /** The runs the planner walks over: canonical, from byte 0, seen without their loaded flags. */
  ghost predicate Runs(mp: seq<Page>) {
    Tight(mp) && Chain(mp) && forall k :: 0 <= k < |mp| ==> !mp[k].st.loaded
  }

  ghost predicate AllGaps(ps: seq<Page>) {
    forall k :: 0 <= k < |ps| ==> ps[k].st == GAP
  }

  ghost predicate MixShape(st: MixState, size: int) {
    && Chain(st.up) && SizeOf(st.up) == st.prev.offset
    && 0 <= st.prev.bytes && st.prev.offset + st.prev.bytes == size && !st.prev.st.loaded && 0 <= st.prev.offset
    && Laid(st.down) && 0 <= SizeOf(st.down) <= size && AllGaps(st.down)
  }

  /** Whether the plan uploads byte b. */
  ghost predicate Uploads(st: MixState, b: int) {
    if st.prev.Covers(b) then st.prev.st.modified else At(st.up, GAP, b).modified
  }

  /** Exactly the modified and the fetched bytes are uploaded, and only unmodified ones are fetched. */
  ghost predicate MixExact(mp: seq<Page>, st: MixState) {
    && (forall b :: 0 <= b < st.prev.offset + st.prev.bytes ==>
        (Uploads(st, b) <==> At(mp, GAP, b).modified || Hit(st.down, b)))
    && (forall b :: Hit(st.down, b) ==> 0 <= b < st.prev.offset + st.prev.bytes && !At(mp, GAP, b).modified)
  }

  /** A part may stay short only in front of further modified bytes. */
  ghost predicate Backed(p: Page, next: Page) {
    MIN_MULTIPART_SIZE <= p.bytes || p.bytes == 0 || (p.st.modified && next.st.modified && 0 < next.bytes)
  }

  ghost predicate AllBacked(ps: seq<Page>) {
    |ps| < 2 || (AllBacked(ps[..|ps| - 1]) && Backed(ps[|ps| - 2], ps[|ps| - 1]))
  }

  ghost predicate MixSizes(st: MixState, k: nat) {
    && (k > 0 ==> 0 < st.prev.bytes)
    && AllBacked(st.up) && (st.up != [] ==> Backed(st.up[|st.up| - 1], st.prev))
  }

  /** Byte b lies in a short run, or among the first bytes of one. */
  ghost predicate Near(mp: seq<Page>, b: int) {
    exists k :: 0 <= k < |mp| && mp[k].Covers(b) &&
                (mp[k].bytes <= 2 * MIN_MULTIPART_SIZE || b < mp[k].offset + MIN_MULTIPART_SIZE)
  }

  /** Only bytes near a modified area are fetched. */
  ghost predicate NearOnly(mp: seq<Page>, down: seq<Page>) {
    forall b :: Hit(down, b) ==> Near(mp, b)
  }

  /** An unmodified part being grown is the whole last run, or what a loan left of it. */
  ghost predicate WholeOrLarge(prev: Page, last: Page) {
    !prev.st.modified ==> !last.st.modified && (prev.offset == last.offset || MIN_MULTIPART_SIZE <= prev.bytes)
  }

  lemma ChainPush(ps: seq<Page>, p: Page)
    requires Chain(ps) && 0 <= p.offset == SizeOf(ps) && 0 <= p.bytes
    ensures Chain(ps + [p]) && SizeOf(ps + [p]) == p.offset + p.bytes
  {
    LaidPush(ps, p);
    ContiguousPush(ps, p);
  }

  lemma GapPush(ps: seq<Page>, p: Page)
    requires Laid(ps) && AllGaps(ps) && 0 <= SizeOf(ps) <= p.offset && 0 <= p.bytes && p.st == GAP
    ensures Laid(ps + [p]) && AllGaps(ps + [p]) && SizeOf(ps + [p]) == p.offset + p.bytes
  {
    LaidPush(ps, p);
  }

  lemma MixShapeStep(st: MixState, iter: Page)
    requires MixShape(st, iter.offset) && 0 <= iter.offset && 0 < iter.bytes && !iter.st.loaded
    // fetched areas lie in front of the part being grown when that part is not an upload
    requires !st.prev.st.modified ==> SizeOf(st.down) <= st.prev.offset
    ensures MixShape(MixStep(st, iter), iter.offset + iter.bytes)
    ensures !MixStep(st, iter).prev.st.modified ==> SizeOf(MixStep(st, iter).down) <= MixStep(st, iter).prev.offset
  {
    MixShapeUp(st, iter);
    MixShapeDown(st, iter);
  }

  lemma MixShapeUp(st: MixState, iter: Page)
    requires Chain(st.up) && 0 <= st.prev.offset == SizeOf(st.up) && 0 <= st.prev.bytes
    requires iter.offset == st.prev.offset + st.prev.bytes
    ensures Chain(MixStep(st, iter).up) && SizeOf(MixStep(st, iter).up) == MixStep(st, iter).prev.offset
  {
    var prev := st.prev;
    ChainPush(st.up, prev);
    ChainPush(st.up, prev.(st := Status(prev.st.loaded, true)));
    ChainPush(st.up, prev.(bytes := MIN_MULTIPART_SIZE));
  }

  lemma MixShapeDown(st: MixState, iter: Page)
    requires Laid(st.down) && AllGaps(st.down) && 0 <= SizeOf(st.down) <= iter.offset
    requires 0 <= st.prev.offset && 0 <= st.prev.bytes && st.prev.offset + st.prev.bytes == iter.offset
    requires !st.prev.st.loaded && !iter.st.loaded && 0 < iter.bytes
    requires !st.prev.st.modified ==> SizeOf(st.down) <= st.prev.offset
    ensures var next := MixStep(st, iter);
            && Laid(next.down) && AllGaps(next.down) && 0 <= SizeOf(next.down) <= iter.offset + iter.bytes
            && (!next.prev.st.modified ==> SizeOf(next.down) <= next.prev.offset)
  {
    var prev := st.prev;
    var missing := MIN_MULTIPART_SIZE - prev.bytes;
    if iter.st.modified && !prev.st.modified && prev.bytes < MIN_MULTIPART_SIZE {
      GapPush(st.down, prev);
    } else if !iter.st.modified && prev.st.modified && prev.bytes < MIN_MULTIPART_SIZE {
      GapPush(st.down, if missing + MIN_MULTIPART_SIZE < iter.bytes then Page(iter.offset, missing, GAP) else iter);
    }
  }

  lemma BackedPush(ps: seq<Page>, p: Page)
    requires AllBacked(ps) && (ps != [] ==> Backed(ps[|ps| - 1], p))
    ensures AllBacked(ps + [p])
  {
    assert (ps + [p])[..|ps|] == ps;
  }

  lemma MixSizesStep(st: MixState, iter: Page, k: nat)
    requires MixSizes(st, k) && 0 < iter.bytes && 0 <= st.prev.bytes
    requires k == 0 ==> Fresh(st)
    ensures MixSizes(MixStep(st, iter), k + 1)
  {
    var prev := st.prev;
    var missing := MIN_MULTIPART_SIZE - prev.bytes;
    if iter.st.modified == prev.st.modified {
    } else if iter.st.modified && prev.bytes < MIN_MULTIPART_SIZE {
      BackedPush(st.up, prev.(st := Status(prev.st.loaded, true)));
    } else if iter.st.modified || MIN_MULTIPART_SIZE <= prev.bytes {
      BackedPush(st.up, prev);
    } else if missing + MIN_MULTIPART_SIZE < iter.bytes {
      BackedPush(st.up, prev.(bytes := MIN_MULTIPART_SIZE));
    }
  }

  ghost predicate Fresh(st: MixState) {
    st.up == [] && st.down == [] && st.prev.offset == 0 && st.prev.bytes == 0 && st.prev.st == GAP
  }

  lemma WholeStep(st: MixState, iter: Page, last: Page)
    requires (Fresh(st) && iter.offset == 0) ||
             (WholeOrLarge(st.prev, last) && last.st.modified != iter.st.modified)
    ensures WholeOrLarge(MixStep(st, iter).prev, iter)
  {
  }

  lemma NearStep(mp: seq<Page>, st: MixState, k: nat)
    requires k < |mp| && NearOnly(mp, st.down) && 0 <= st.prev.bytes
    requires Fresh(st) ||
             (k > 0 && WholeOrLarge(st.prev, mp[k - 1])
              && mp[k - 1].offset + mp[k - 1].bytes == mp[k].offset == st.prev.offset + st.prev.bytes)
    ensures NearOnly(mp, MixStep(st, mp[k]).down)
  {
    var prev, iter := st.prev, mp[k];
    var missing := MIN_MULTIPART_SIZE - prev.bytes;
    if iter.st.modified && !prev.st.modified && prev.bytes < MIN_MULTIPART_SIZE {
      NearPush(mp, st.down, prev, if k > 0 then k - 1 else 0);
    } else if !iter.st.modified && prev.st.modified && prev.bytes < MIN_MULTIPART_SIZE {
      NearPush(mp, st.down, if missing + MIN_MULTIPART_SIZE < iter.bytes then Page(iter.offset, missing, GAP) else iter,
               k);
    }
  }

  lemma NearPush(mp: seq<Page>, down: seq<Page>, p: Page, k: nat)
    requires k < |mp| && NearOnly(mp, down)
    requires p.bytes == 0 || (p.offset == mp[k].offset && p.offset + p.bytes <= mp[k].offset + mp[k].bytes &&
             (mp[k].bytes <= 2 * MIN_MULTIPART_SIZE || p.bytes <= MIN_MULTIPART_SIZE))
    ensures NearOnly(mp, down + [p])
  {
    HitPush(down, p);
    forall b | p.Covers(b) ensures Near(mp, b) {
      assert mp[k].Covers(b);
    }
  }

  lemma {:induction false} MixExactStep(mp: seq<Page>, st: MixState, k: nat)
    requires Runs(mp) && k < |mp| && MixShape(st, mp[k].offset) && MixExact(mp, st)
    requires k == 0 ==> Fresh(st)
    ensures MixExact(mp, MixStep(st, mp[k]))
  {
    var iter := mp[k];
    forall b | iter.Covers(b) ensures At(mp, GAP, b).modified == iter.st.modified { AtIndex(mp, GAP, k, b); }
    RunPlace(mp, k);
    if iter.st.modified {
      MixExactModified(mp, st, iter);
    } else {
      MixExactUnmodified(mp, st, iter);
    }
  }

  lemma {:induction false} MixExactModified(mp: seq<Page>, st: MixState, iter: Page)
    requires MixShape(st, iter.offset) && MixExact(mp, st) && iter.st.modified && 0 < iter.bytes
    requires forall b :: iter.Covers(b) ==> At(mp, GAP, b).modified
    ensures MixExact(mp, MixStep(st, iter))
  {
    var prev := st.prev;
    AtPush(st.up, prev, GAP);
    AtPush(st.up, prev.(st := Status(prev.st.loaded, true)), GAP);
    HitPush(st.down, prev);
  }

  lemma {:induction false} MixExactUnmodified(mp: seq<Page>, st: MixState, iter: Page)
    requires MixShape(st, iter.offset) && MixExact(mp, st) && !iter.st.modified && 0 < iter.bytes
    requires forall b :: iter.Covers(b) ==> !At(mp, GAP, b).modified
    ensures MixExact(mp, MixStep(st, iter))
  {
    var prev := st.prev;
    if prev.st.modified && prev.bytes < MIN_MULTIPART_SIZE {
      var missing := MIN_MULTIPART_SIZE - prev.bytes;
      if missing + MIN_MULTIPART_SIZE < iter.bytes {
        MixExactLoan(mp, st, iter);
      } else {
        HitPush(st.down, iter);
      }
    } else {
      AtPush(st.up, prev, GAP);
    }
  }

  lemma {:induction false} MixExactLoan(mp: seq<Page>, st: MixState, iter: Page)
    requires MixShape(st, iter.offset) && MixExact(mp, st) && !iter.st.modified && st.prev.st.modified
    requires var missing := MIN_MULTIPART_SIZE - st.prev.bytes; 0 < missing && missing + MIN_MULTIPART_SIZE < iter.bytes
    requires forall b :: iter.Covers(b) ==> !At(mp, GAP, b).modified
    ensures MixExact(mp, MixStep(st, iter))
  {
    AtPush(st.up, st.prev.(bytes := MIN_MULTIPART_SIZE), GAP);
    HitPush(st.down, Page(iter.offset, MIN_MULTIPART_SIZE - st.prev.bytes, GAP));
  }

  // ---- what compression and splitting make of the plan

  lemma {:induction false} GapsRead(ps: seq<Page>, b: int)
    requires AllGaps(ps)
    ensures At(ps, GAP, b) == GAP
  {
    if ps != [] {
      GapsRead(ps[..|ps| - 1], b);
    }
  }

  lemma HitFront(ps: seq<Page>, b: int)
    requires ps != []
    ensures Hit(ps, b) <==> Hit(ps[..|ps| - 1], b) || ps[|ps| - 1].Covers(b)
  {
    if k :| 0 <= k < |ps| && ps[k].Covers(b) {
      assert k < |ps| - 1 ==> ps[..|ps| - 1][k].Covers(b);
    }
    var front := ps[..|ps| - 1];
    if k :| 0 <= k < |front| && front[k].Covers(b) {
      assert ps[k].Covers(b);
    }
  }

  lemma {:induction false} PreparedHit(ps: seq<Page>, m: Mode, b: int)
    ensures Hit(Prepared(ps, m), b) <==> Hit(ps, b)
  {
    if ps != [] {
      var front, p := ps[..|ps| - 1], ps[|ps| - 1];
      PreparedHit(front, m, b);
      HitFront(ps, b);
      if p.bytes != 0 {
        HitPush(Prepared(front, m), p.(st := m.Apply(p.st)));
      }
    }
  }

  lemma {:induction false} ParsedUnmodified(ps: seq<Page>, max: int)
    requires 0 < max && forall k :: 0 <= k < |ps| ==> !ps[k].st.modified
    ensures Parsed(ps, max) == ps
  {
    if ps != [] {
      ParsedUnmodified(ps[..|ps| - 1], max);
    }
  }

  lemma FetchGaps(down: seq<Page>)
    requires Laid(down) && AllGaps(down)
    ensures AllGaps(Compressed(down, IGNORE_MODIFY))
  {
    var dl := Compressed(down, IGNORE_MODIFY);
    CompressedKeeps(down, IGNORE_MODIFY);
    forall k | 0 <= k < |dl| ensures dl[k].st == GAP {
      AtIndex(dl, GAP, k, dl[k].offset);
      GapsRead(down, dl[k].offset);
    }
  }

  lemma GapsSingle(ps: seq<Page>)
    requires Merged(ps) && AllGaps(ps)
    ensures |ps| <= 1
  {
  }

  /** The compressed fetch list is at most one page: it reaches from the first fetched byte to the
      last, whatever lies between them. */
  lemma FetchHull(down: seq<Page>)
    requires Laid(down) && AllGaps(down)
    ensures var dl := Compressed(down, IGNORE_MODIFY);
            AllGaps(dl) && IsHull(down, dl)
  {
    var ps := Prepared(down, IGNORE_MODIFY);
    var dl := Compressed(down, IGNORE_MODIFY);
    PreparedAt(down, IGNORE_MODIFY);
    CompactKeeps(ps, GAP);
    FetchGaps(down);
    GapsSingle(dl);
    forall b ensures Hit(down, b) <==> Hit(ps, b) { PreparedHit(down, IGNORE_MODIFY, b); }
    FetchEnds(down, ps, dl);
  }

  lemma FetchEnds(down: seq<Page>, ps: seq<Page>, dl: seq<Page>)
    requires Laid(ps) && Positive(ps) && forall b :: Hit(down, b) <==> Hit(ps, b)
    requires |dl| <= 1 && Positive(dl) && (dl == [] <==> ps == []) && SizeOf(dl) == SizeOf(ps)
    requires ps != [] ==> dl[0].offset == ps[0].offset
    ensures IsHull(down, dl)
  {
    FetchCovers(down, ps, dl);
    if ps != [] {
      HitBounds(ps, ps[0].offset);
    }
  }

  lemma FetchCovers(down: seq<Page>, ps: seq<Page>, dl: seq<Page>)
    requires Laid(ps) && Positive(ps) && forall b :: Hit(down, b) ==> Hit(ps, b)
    requires |dl| <= 1 && (dl == [] <==> ps == []) && SizeOf(dl) == SizeOf(ps)
    requires ps != [] ==> dl[0].offset == ps[0].offset
    ensures forall b :: Hit(down, b) ==> Hit(dl, b)
  {
    forall b | Hit(down, b) ensures Hit(dl, b) {
      HitBounds(ps, b);
      assert dl[0].Covers(b);
    }
  }

  lemma HitBounds(ps: seq<Page>, b: int)
    requires Laid(ps) && Positive(ps)
    ensures Hit(ps, b) ==> ps != [] && ps[0].offset <= b < SizeOf(ps)
    ensures ps != [] ==> Hit(ps, ps[0].offset) && Hit(ps, SizeOf(ps) - 1)
  {
    if k :| 0 <= k < |ps| && ps[k].Covers(b) {
      LaidIndex(ps, k);
      if k > 0 { LaidIndex(ps, 0); LaidOrder(ps, 0, k); }
    }
    if ps != [] {
      assert ps[0].Covers(ps[0].offset) && ps[|ps| - 1].Covers(SizeOf(ps) - 1);
    }
  }

  /** No empty pages left: a page stays short only in front of a page of equal status. */
  ghost predicate Grouped(ps: seq<Page>) {
    |ps| < 2 || (Grouped(ps[..|ps| - 1]) &&
      (MIN_MULTIPART_SIZE <= ps[|ps| - 2].bytes || ps[|ps| - 2].st == ps[|ps| - 1].st))
  }

  /** The last non-empty page of ps as the mode shows it is the last page, or large. */
  lemma {:induction false} PreparedGrouped(ps: seq<Page>)
    requires AllBacked(ps) && (forall k :: 0 <= k < |ps| ==> 0 <= ps[k].bytes)
    ensures var r := Prepared(ps, IGNORE_LOAD);
            && Grouped(r) && Positive(r)
            && (r != [] && r[|r| - 1].bytes < MIN_MULTIPART_SIZE ==>
                  r[|r| - 1] == ps[|ps| - 1].(st := IGNORE_LOAD.Apply(ps[|ps| - 1].st)))
  {
    if ps != [] {
      var front, p := ps[..|ps| - 1], ps[|ps| - 1];
      PreparedGrouped(front);
      var done := Prepared(front, IGNORE_LOAD);
      assert front != [] ==> Backed(front[|front| - 1], p);
      if p.bytes != 0 {
        var q := p.(st := IGNORE_LOAD.Apply(p.st));
        GroupedPush(done, q);
      }
    }
  }

  lemma GroupedPush(done: seq<Page>, q: Page)
    requires Grouped(done)
    requires done != [] ==> MIN_MULTIPART_SIZE <= done[|done| - 1].bytes || done[|done| - 1].st == q.st
    ensures Grouped(done + [q])
  {
    assert (done + [q])[..|done|] == done;
  }

  /** Compression turns the groups into pages that are large, the last one excepted. */
  lemma {:induction false} CompactLarge(ps: seq<Page>)
    requires Grouped(ps) && Positive(ps) && Chain(ps)
    ensures var r := Compact(ps, GAP);
            && LargeButLast(r, MIN_MULTIPART_SIZE) && SizeOf(r) == SizeOf(ps)
            && (ps != [] ==> r != [] && r[|r| - 1].st == ps[|ps| - 1].st && ps[|ps| - 1].bytes <= r[|r| - 1].bytes)
  {
    if ps != [] {
      ChainFront(ps);
      CompactLarge(ps[..|ps| - 1]);
      CompactKeeps(ps[..|ps| - 1], GAP);
      var done := Compact(ps[..|ps| - 1], GAP);
      assert done != [] ==> 0 < done[|done| - 1].bytes;
    }
  }

  // ---- the contract of the plan

  /** A gap-free list of parts over [0, size) within the limits of the upload service. */
  ghost predicate MixTiles(up: seq<Page>, size: int, max: int) {
    && Chain(up) && Positive(up) && SizeOf(up) == size
    && LargeButLast(up, MIN_MULTIPART_SIZE) && UploadsAtMost(up, 2 * max)
  }

  /** A byte the plan uploads although nobody wrote it. */
  ghost predicate Needed(pages: seq<Page>, up: seq<Page>, b: int) {
    0 <= b < SizeOf(pages) && !At(pages, GAP, b).modified && At(up, GAP, b).modified
  }

  /** Modified bytes are uploaded; every other uploaded byte is on the fetch list. */
  ghost predicate MixSound(pages: seq<Page>, dl: seq<Page>, up: seq<Page>) {
    && (forall b :: 0 <= b < SizeOf(pages) && At(pages, GAP, b).modified ==> At(up, GAP, b).modified)
    && (forall b :: Needed(pages, up, b) ==> Hit(dl, b))
  }

  /** The fetch list is one stretch that starts and ends with a needed byte. */
  ghost predicate MixHull(pages: seq<Page>, dl: seq<Page>, up: seq<Page>) {
    && |dl| <= 1
    && (dl != [] ==>
          && 0 < dl[0].bytes && Needed(pages, up, dl[0].offset)
          && Needed(pages, up, dl[0].offset + dl[0].bytes - 1))
  }

  lemma HullPlace(pages: seq<Page>, dl: seq<Page>, up: seq<Page>)
    requires MixHull(pages, dl, up)
    ensures forall k :: 0 <= k < |dl| ==> 0 <= dl[k].offset && 0 < dl[k].bytes
  {
  }

  ghost predicate Untouched(pages: seq<Page>, from: int, to: int) {
    forall b :: from <= b < to ==> !At(pages, GAP, b).modified
  }

  /** Of a long unmodified stretch at most the head is uploaded. */
  ghost predicate MixThrift(pages: seq<Page>, up: seq<Page>) {
    forall from, to, b |
      0 <= from && to <= SizeOf(pages) && 2 * MIN_MULTIPART_SIZE < to - from && Untouched(pages, from, to) &&
      from + MIN_MULTIPART_SIZE <= b < to :: !At(up, GAP, b).modified
  }

  lemma NearRuns(pages: seq<Page>, mp: seq<Page>, from: int, to: int, b: int)
    requires Runs(mp) && SizeOf(mp) == SizeOf(pages) && 0 <= from <= b < to <= SizeOf(mp)
    requires forall x :: At(mp, GAP, x).modified == At(pages, GAP, x).modified
    requires Untouched(pages, from, to) && Near(mp, b)
    ensures to - from <= 2 * MIN_MULTIPART_SIZE || b < from + MIN_MULTIPART_SIZE
  {
    var k :| 0 <= k < |mp| && mp[k].Covers(b) &&
             (mp[k].bytes <= 2 * MIN_MULTIPART_SIZE || b < mp[k].offset + MIN_MULTIPART_SIZE);
    AtIndex(mp, GAP, k, b);
    if from < mp[k].offset {
      TightIndex(mp, k);
      ContiguousIndex(mp, k);
      if k > 0 { AtIndex(mp, GAP, k - 1, mp[k].offset - 1); }
    }
    if mp[k].offset + mp[k].bytes < to {
      if k + 1 < |mp| {
        TightIndex(mp, k + 1);
        ContiguousIndex(mp, k + 1);
        AtIndex(mp, GAP, k + 1, mp[k].offset + mp[k].bytes);
      }
    }
  }

  // ---- the planner

  /** What holds after the first k runs. */
  ghost predicate MixInv(mp: seq<Page>, k: nat, st: MixState) {
    && k <= |mp|
    && MixShape(st, SizeOf(mp[..k])) && MixExact(mp, st) && NearOnly(mp, st.down) && MixSizes(st, k)
    && (!st.prev.st.modified ==> SizeOf(st.down) <= st.prev.offset)
    && (k > 0 ==> WholeOrLarge(st.prev, mp[k - 1]))
  }

  lemma MixInvStep(mp: seq<Page>, k: nat, st: MixState)
    requires Runs(mp) && k < |mp| && MixInv(mp, k, st)
    requires k == 0 ==> Fresh(st)
    ensures MixInv(mp, k + 1, MixStep(st, mp[k]))
  {
    RunPlace(mp, k);
    MixShapeStep(st, mp[k]);
    MixExactStep(mp, st, k);
    MixSizesStep(st, mp[k], k);
    NearStep(mp, st, k);
    WholeStep(st, mp[k], if k > 0 then mp[k - 1] else mp[k]);
  }

  lemma MixInvStart(mp: seq<Page>, st: MixState)
    requires st.up == [] && st.down == [] && !st.prev.st.loaded && !st.prev.st.modified
    requires st.prev.offset + st.prev.bytes == st.prev.offset == 0
    ensures MixInv(mp, 0, st)
  {
    assert mp[..0] == [];
    assert forall b :: !Hit(st.down, b);
  }

  /** The planner's state behind the runs. */
  ghost function MixPlanned(mp: seq<Page>): MixState {
    if mp == [] then MixState([], Page(0, 0, GAP), []) else MixStep(MixPlanned(mp[..|mp| - 1]), mp[|mp| - 1])
  }

  lemma {:induction false} MixPlannedInv(mp: seq<Page>, k: nat)
    requires Runs(mp) && k <= |mp|
    ensures MixInv(mp, k, MixPlanned(mp[..k])) && (k == 0 ==> Fresh(MixPlanned(mp[..k])))
  {
    if k == 0 {
      MixInvStart(mp, MixPlanned([]));
    } else {
      MixPlannedInv(mp, k - 1);
      assert mp[..k][..k - 1] == mp[..k - 1];
      MixInvStep(mp, k - 1, MixPlanned(mp[..k - 1]));
    }
  }

  /** The planning loop. */
  method PlanRuns(mp: seq<Page>) returns (st: MixState)
    ensures st == MixPlanned(mp)
  {
    st := MixState([], Page(0, 0, GAP), []);
    for k := 0 to |mp|
      invariant st == MixPlanned(mp[..k])
    {
      assert mp[..k + 1][..k] == mp[..k];
      st := MixStep(st, mp[k]);
    }
    assert mp[..|mp|] == mp;
  }

  lemma RunPlace(mp: seq<Page>, k: nat)
    requires Runs(mp) && k < |mp|
    ensures 0 <= mp[k].offset && 0 < mp[k].bytes && !mp[k].st.loaded
    ensures SizeOf(mp[..k]) == mp[k].offset && SizeOf(mp[..k + 1]) == mp[k].offset + mp[k].bytes
    ensures k == 0 ==> mp[k].offset == 0
    ensures k > 0 ==> mp[k - 1].st.modified != mp[k].st.modified && mp[k - 1].offset + mp[k - 1].bytes == mp[k].offset
  {
    LaidIndex(mp, k);
    ContiguousIndex(mp, k);
    TightIndex(mp, k);
  }

  /** The parts of a finished plan, the part being grown included. */
  function Parts(st: MixState): seq<Page> {
    if 0 < st.prev.bytes then st.up + [st.prev] else st.up
  }

  /** The parts planned for the page list. */
  ghost function MixUploads(pages: seq<Page>, max: int): seq<Page>
    requires 0 < max
  {
    Parsed(Compressed(Parts(MixPlanned(Compressed(pages, IGNORE_LOAD))), IGNORE_LOAD), max)
  }

  ghost function MixFetches(pages: seq<Page>, max: int): seq<Page>
    requires 0 < max
  {
    Parsed(Compressed(MixPlanned(Compressed(pages, IGNORE_LOAD)).down, IGNORE_MODIFY), max)
  }

  /** What the two lists are good for. */
  lemma MixPlanKeeps(pages: seq<Page>, max: int)
    requires Chain(pages) && MIN_MULTIPART_SIZE <= max
    ensures var dl, up := MixFetches(pages, max), MixUploads(pages, max);
            && MixTiles(up, SizeOf(pages), max)
            && MixSound(pages, dl, up) && MixHull(pages, dl, up) && MixThrift(pages, up)
  {
    var mp := Compressed(pages, IGNORE_LOAD);
    var st := MixPlanned(mp);
    RunsOf(pages);
    assert mp[..|mp|] == mp;
    MixPlannedInv(mp, |mp|);
    PlanFetches(st.down, max);
    PlanUploads(mp, st, max);
    PlanMeaning(pages, mp, st, MixFetches(pages, max), MixUploads(pages, max));
  }

  /** Both lists of the mixed upload plan for the page list pages. */
  method PlanMix(pages: seq<Page>, max: int) returns (dl: seq<Page>, up: seq<Page>)
    requires Chain(pages) && MIN_MULTIPART_SIZE <= max
    ensures MixTiles(up, SizeOf(pages), max) && up == MixUploads(pages, max)
    ensures MixSound(pages, dl, up) && MixHull(pages, dl, up) && MixThrift(pages, up)
  {
    RunsOf(pages);
    var mp := RawCompress(pages, IGNORE_LOAD);
    var st := PlanRuns(mp);
    assert mp[..|mp|] == mp;
    MixPlannedInv(mp, |mp|);
    dl := RawCompress(st.down, IGNORE_MODIFY);
    PartsShape(mp, st);
    up := RawCompress(Parts(st), IGNORE_LOAD);
    dl := ParsePartsize(dl, max);
    up := ParsePartsize(up, max);
    MixPlanKeeps(pages, max);
  }

  /** dl is the stretch from the first byte of down to the last. */
  ghost predicate IsHull(down: seq<Page>, dl: seq<Page>) {
    && |dl| <= 1 && Positive(dl)
    && (forall b :: Hit(down, b) ==> Hit(dl, b))
    && (dl != [] ==> Hit(down, dl[0].offset) && Hit(down, dl[0].offset + dl[0].bytes - 1))
  }

  lemma PlanFetches(down: seq<Page>, max: int)
    requires Laid(down) && AllGaps(down) && 0 < max
    ensures IsHull(down, Parsed(Compressed(down, IGNORE_MODIFY), max))
  {
    FetchHull(down);
    var dl := Compressed(down, IGNORE_MODIFY);
    assert forall k :: 0 <= k < |dl| ==> !dl[k].st.modified;
    ParsedUnmodified(dl, max);
  }

  lemma PartsShape(mp: seq<Page>, st: MixState)
    requires MixInv(mp, |mp|, st)
    ensures var all := Parts(st);
            && Chain(all) && SizeOf(all) == SizeOf(mp) && AllBacked(all)
            && forall k :: 0 <= k < |all| ==> 0 <= all[k].bytes
  {
    assert mp[..|mp|] == mp;
    if 0 < st.prev.bytes {
      ChainPush(st.up, st.prev);
      BackedPush(st.up, st.prev);
    }
    forall k | 0 <= k < |Parts(st)| ensures 0 <= Parts(st)[k].bytes { LaidIndex(Parts(st), k); }
  }

  lemma PartsAt(st: MixState, b: int)
    ensures At(Parts(st), GAP, b).modified == Uploads(st, b)
  {
    AtPush(st.up, st.prev, GAP);
  }

  lemma PlanUploads(mp: seq<Page>, st: MixState, max: int)
    requires MixInv(mp, |mp|, st) && MIN_MULTIPART_SIZE <= max
    ensures var up := Parsed(Compressed(Parts(st), IGNORE_LOAD), max);
            && MixTiles(up, SizeOf(mp), max)
            && forall b :: At(up, GAP, b) == Status(false, Uploads(st, b))
  {
    var all := Parts(st);
    PartsShape(mp, st);
    CompressedChain(all, IGNORE_LOAD);
    PreparedChain(all, IGNORE_LOAD);
    PreparedGrouped(all);
    CompactLarge(Prepared(all, IGNORE_LOAD));
    var r := Compressed(all, IGNORE_LOAD);
    ParsedKeeps(r, max, MIN_MULTIPART_SIZE);
    forall b ensures At(Parsed(r, max), GAP, b) == Status(false, Uploads(st, b)) {
      PartsAt(st, b);
    }
  }

  lemma RunsOf(pages: seq<Page>)
    requires Chain(pages)
    ensures var mp := Compressed(pages, IGNORE_LOAD);
            && Runs(mp) && SizeOf(mp) == SizeOf(pages)
            && forall b :: At(mp, GAP, b) == Status(false, At(pages, GAP, b).modified)
  {
    CompressedChain(pages, IGNORE_LOAD);
    var mp := Compressed(pages, IGNORE_LOAD);
    forall k | 0 <= k < |mp| ensures !mp[k].st.loaded {
      AtIndex(mp, GAP, k, mp[k].offset);
    }
  }

  lemma PlanMeaning(pages: seq<Page>, mp: seq<Page>, st: MixState, dl: seq<Page>, up: seq<Page>)
    requires Runs(mp) && SizeOf(mp) == SizeOf(pages) && MixInv(mp, |mp|, st)
    requires forall b :: At(mp, GAP, b) == Status(false, At(pages, GAP, b).modified)
    requires IsHull(st.down, dl)
    requires forall b :: At(up, GAP, b) == Status(false, Uploads(st, b))
    ensures MixSound(pages, dl, up) && MixHull(pages, dl, up) && MixThrift(pages, up)
  {
    assert mp[..|mp|] == mp;
    assert forall b :: Needed(pages, up, b) <==> Hit(st.down, b);
    forall from, to, b |
      0 <= from && to <= SizeOf(pages) && 2 * MIN_MULTIPART_SIZE < to - from && Untouched(pages, from, to) &&
      from + MIN_MULTIPART_SIZE <= b < to
      ensures !At(up, GAP, b).modified
    {
      assert !At(pages, GAP, b).modified;
      if Hit(st.down, b) {
        NearRuns(pages, mp, from, to, b);
      }
    }
  }

  /** A plan within the limits has few parts. */
  lemma {:induction false} MixPartCount(up: seq<Page>)
    requires Chain(up) && Positive(up) && LargeButLast(up, MIN_MULTIPART_SIZE) && up != []
    ensures (|up| - 1) * MIN_MULTIPART_SIZE <= up[|up| - 1].offset
    ensures |up| <= SizeOf(up) / MIN_MULTIPART_SIZE + 1
  {
    ChainFront(up);
    if |up| > 1 {
      MixPartCount(up[..|up| - 1]);
    }
  }
}
