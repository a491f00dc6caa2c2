/** How a stream upload (PseudoFdInfo of fdcache_fdinfo.cpp) divides a file into parts: the areas it
    uploads in the background while the file is written, and the division of the whole file into
    kept, uploaded and copied parts when it is flushed. Part number n stands for the n-th block of
    m bytes, m being the multipart size. */
module StreamPlans {
  import opened Limits
  import opened Untreated

  /** Struct mp_part: an area to send, copy or fetch. */
  datatype MpPart = MpPart(start: int, size: int, partNum: int) {
    ghost predicate Covers(b: int) { start <= b < start + size }
  }

  /** Struct filepart: a part given to the upload. */
  datatype FilePart = FilePart(uploaded: bool, start: int, size: int, isCopy: bool, partNum: int) {
    ghost predicate Covers(b: int) { start <= b < start + size }
  }

  /** Some area of ps covers b. */
  ghost predicate InMp(ps: seq<MpPart>, b: int) {
    ps != [] && (ps[|ps| - 1].Covers(b) || InMp(ps[..|ps| - 1], b))
  }

  ghost predicate InFiles(ps: seq<FilePart>, b: int) {
    exists p :: p in ps && p.Covers(b)
  }

  lemma InMpPush(ps: seq<MpPart>, p: MpPart)
    ensures forall b :: InMp(ps + [p], b) <==> InMp(ps, b) || p.Covers(b)
  {
    assert (ps + [p])[..|ps|] == ps;
  }

  lemma InFilesPush(ps: seq<FilePart>, p: FilePart)
    ensures forall b :: InFiles(ps + [p], b) <==> InFiles(ps, b) || p.Covers(b)
  {
    assert p in ps + [p];
    forall b ensures InFiles(ps + [p], b) <==> InFiles(ps, b) || p.Covers(b) {
      if q :| q in ps && q.Covers(b) { assert q in ps + [p]; }
    }
  }

  // ---- upload lists

  /** Whole block number p.partNum, sent from the cache file; nothing ever marks it as uploaded. */
  ghost predicate IsBlock(p: FilePart, m: int) {
    1 <= p.partNum && p.start == (p.partNum - 1) * m && p.size == m && !p.isCopy && !p.uploaded
  }

  /** Part numbers increase strictly. */
  ghost predicate Numbered(ps: seq<FilePart>) {
    forall j, k :: 0 <= j < k < |ps| ==> ps[j].partNum < ps[k].partNum
  }

  /** The shape of the upload list between flushes. */
  ghost predicate Blocks(ps: seq<FilePart>, m: int) {
    Numbered(ps) && forall p :: p in ps ==> IsBlock(p, m)
  }

  ghost predicate EndsBy(ps: seq<FilePart>, fileSize: int) {
    forall p :: p in ps ==> p.start + p.size <= fileSize
  }

  ghost predicate Listed(ps: seq<FilePart>, num: int) {
    exists p :: p in ps && p.partNum == num
  }

  /** The parts numbered lo to hi. */
  ghost function Between(ps: seq<FilePart>, lo: int, hi: int): seq<FilePart> {
    if ps == [] then []
    else
      var front, p := Between(ps[..|ps| - 1], lo, hi), ps[|ps| - 1];
      if lo <= p.partNum <= hi then front + [p] else front
  }

  /** The other parts. */
  ghost function Outside(ps: seq<FilePart>, lo: int, hi: int): seq<FilePart> {
    if ps == [] then []
    else
      var front, p := Outside(ps[..|ps| - 1], lo, hi), ps[|ps| - 1];
      if lo <= p.partNum <= hi then front else front + [p]
  }

  lemma {:induction false} OutsideIn(ps: seq<FilePart>, lo: int, hi: int)
    ensures forall p :: p in Outside(ps, lo, hi) <==> p in ps && !(lo <= p.partNum <= hi)
    ensures Numbered(ps) ==> Numbered(Outside(ps, lo, hi))
  {
    if ps != [] {
      OutsideIn(ps[..|ps| - 1], lo, hi);
      assert ps == ps[..|ps| - 1] + [ps[|ps| - 1]];
      var front := Outside(ps[..|ps| - 1], lo, hi);
      if Numbered(ps) {
        forall j | 0 <= j < |front| ensures front[j].partNum < ps[|ps| - 1].partNum {
          assert front[j] in front;
          var i :| 0 <= i < |ps| - 1 && ps[i] == front[j];
        }
      }
    }
  }

  lemma {:induction false} BetweenIn(ps: seq<FilePart>, lo: int, hi: int)
    ensures forall p :: p in Between(ps, lo, hi) <==> p in ps && lo <= p.partNum <= hi
  {
    if ps != [] {
      BetweenIn(ps[..|ps| - 1], lo, hi);
      assert ps == ps[..|ps| - 1] + [ps[|ps| - 1]];
    }
  }

  // ---- uploading while the file is written

  /** Blocks lo, lo + 1, ... : n of them. */
  ghost function BlockRun(lo: int, n: nat, m: int): seq<MpPart> {
    if n == 0 then [] else BlockRun(lo, n - 1, m) + [MpPart((lo + n - 2) * m, m, lo + n - 1)]
  }

  /** An area from the start of block lo whose last byte is in block hi meets block n. */
  lemma OverlapIs(lo: int, n: int, hi: int, stop: int, m: int)
    requires 0 < m && 1 <= lo && 1 <= n && 0 <= stop && Ceil(stop, m) == hi
    ensures (n - 1) * m + m <= (lo - 1) * m <==> n < lo
    ensures stop <= (n - 1) * m <==> hi < n
    ensures n <= hi && stop < (n - 1) * m + m ==> n == hi
    ensures (n - 1) * m + m == n * m && stop <= hi * m && Ceil(hi * m, m) == hi
  {
    MulLe(n, lo - 1, m);
    MulLe(n - 1, n, m);
    CeilLe(stop, n - 1, m);
    CeilLe(stop, n, m);
    CeilLe(stop, hi, m);
    MulDiv(hi, m);
  }

  /** The cancelling loop: takes every listed block that meets the area out of the list; the area
      grows to the end of a block that passes its end. */
  method CancelOverlapped(list: seq<FilePart>, start: int, size: int, m: int, ghost lo: int, ghost hi: int)
    returns (rest: seq<FilePart>, cancel: seq<FilePart>, grown: int)
    requires 0 < m <= size && 1 <= lo && 0 <= start == (lo - 1) * m && hi == Ceil(start + size, m) && Blocks(list, m)
    ensures rest == Outside(list, lo, hi) && cancel == Between(list, lo, hi)
    ensures grown == if Listed(list, hi) then hi * m - start else size
  {
    rest, cancel, grown := list, [], size;
    var i := 0;
    ghost var j := 0;
    while i < |rest|
      invariant 0 <= i <= |rest| && 0 <= j <= |list|
      invariant rest[..i] == Outside(list[..j], lo, hi) && rest[i..] == list[j..]
      invariant cancel == Between(list[..j], lo, hi)
      invariant grown == Grown(list[..j], start, size, hi, m)
      decreases |list| - j
    {
      var p := rest[i];
      assert p == rest[i..][0] == list[j] && p in list;
      CancelStep(list[..j], p, start, size, grown, m, lo, hi);
      FilterStep(list, j, lo, hi);
      CursorStep(list, j, rest, i);
      if p.start + p.size - 1 < start || start + grown - 1 < p.start {
        i := i + 1;
      } else {
        if start + grown - 1 < p.start + p.size - 1 {
          grown := grown + ((p.start + p.size) - (start + grown));
        }
        cancel := cancel + [p];
        rest := rest[..i] + rest[i + 1..];
      }
      j := j + 1;
    }
    assert |list[j..]| == |rest[i..]| == 0;
    assert list[..j] == list && rest[..i] == rest;
  }

  /** The size of the area once the parts done were looked at. */
  ghost function Grown(done: seq<FilePart>, start: int, size: int, hi: int, m: int): int {
    if Listed(done, hi) then hi * m - start else size
  }

  lemma {:induction false} FilterStep(list: seq<FilePart>, j: nat, lo: int, hi: int)
    requires j < |list|
    ensures var p := list[j];
            && Outside(list[..j + 1], lo, hi) == Outside(list[..j], lo, hi) + (if lo <= p.partNum <= hi then []
                  else [p])
            && Between(list[..j + 1], lo, hi) == Between(list[..j], lo, hi) + (if lo <= p.partNum <= hi then [p]
                  else [])
            && list[..j + 1] == list[..j] + [p]
  {
    assert list[..j + 1][..j] == list[..j];
  }

  lemma CursorStep(list: seq<FilePart>, j: nat, rest: seq<FilePart>, i: nat)
    requires j < |list| && i < |rest| && rest[i..] == list[j..]
    ensures rest[i + 1..] == list[j + 1..] && rest[..i + 1] == rest[..i] + [rest[i]]
    ensures var cut := rest[..i] + rest[i + 1..]; cut[..i] == rest[..i] && cut[i..] == list[j + 1..]
  {
    assert rest[i + 1..] == rest[i..][1..] && list[j + 1..] == list[j..][1..];
  }

  lemma ListedPush(ps: seq<FilePart>, p: FilePart, num: int)
    ensures Listed(ps + [p], num) <==> Listed(ps, num) || p.partNum == num
  {
    assert p in ps + [p];
    if q :| q in ps && q.partNum == num { assert q in ps + [p]; }
  }

  lemma CancelStep(done: seq<FilePart>, p: FilePart, start: int, size: int, grown: int, m: int, lo: int, hi: int)
    requires 0 < m <= size && 1 <= lo && 0 <= start == (lo - 1) * m && IsBlock(p, m)
    requires hi == Ceil(start + size, m) && grown == Grown(done, start, size, hi, m)
    ensures (p.start + p.size - 1 < start || start + grown - 1 < p.start) <==> !(lo <= p.partNum <= hi)
    ensures Grown(done + [p], start, size, hi, m) ==
              if lo <= p.partNum <= hi && start + grown < p.start + p.size then (p.start + p.size) - start else grown
  {
    ListedPush(done, p, hi);
    CeilTop(start + size, hi, m);
    CeilTop(hi * m, hi, m);
    OverlapIs(lo, p.partNum, hi, start + grown, m);
    CeilLe(start + size, lo - 1, m);
  }

  lemma CeilTop(stop: int, hi: int, m: int)
    requires 0 < m && 0 <= stop && hi == Ceil(stop, m)
    ensures Ceil(hi * m, m) == hi && 0 <= hi * m && stop <= hi * m
  {
    CeilLe(stop, hi, m);
    MulDiv(hi, m);
  }

  /** Full blocks of the area, numbered. */
  method NumberBlocks(start: int, size: int, m: int) returns (up: seq<MpPart>)
    requires 0 < m && 0 <= start && start % m == 0 && 0 <= size
    ensures up == BlockRun(start / m + 1, size / m, m)
  {
    var at, rest := start, size;
    up := [];
    ghost var lo, n := start / m + 1, 0;
    while m <= rest
      invariant 0 <= n && 0 <= rest && up == BlockRun(lo, n, m)
      invariant at == (lo + n - 1) * m && rest == size - n * m
    {
      MulDiv(lo + n - 1, m);
      MulLe(lo + n - 1, lo + n, m);
      MulLe(n, n + 1, m);
      up := up + [MpPart(at, m, at / m + 1)];
      at, rest, n := at + m, rest - m, n + 1;
    }
    DivUnique(size, n, rest, m);
  }

  /** What an upload out of the area [start, start + size) does to the upload list. */
  method ExtractUploadPartsFromUntreatedArea(list: seq<FilePart>, start: int, size: int, m: int)
    returns (ok: bool, rest: seq<FilePart>, up: seq<MpPart>, cancel: seq<FilePart>)
    requires 0 < m && Blocks(list, m)
    ensures ok <==> 0 <= start && 0 < size
    ensures !ok ==> rest == list
    ensures ok && start + size < start / m * m + m ==> rest == list && up == [] && cancel == []
    ensures ok && start / m * m + m <= start + size ==>
              var lo, hi := start / m + 1, Ceil(start + size, m);
              && rest == Outside(list, lo, hi) && cancel == Between(list, lo, hi)
              && 0 <= (if Listed(list, hi) then hi else (start + size) / m) + 1 - lo
              && up == BlockRun(lo, (if Listed(list, hi) then hi else (start + size) / m) + 1 - lo, m)
  {
    rest, up, cancel := list, [], [];
    if start < 0 || size <= 0 {
      return false, rest, up, cancel;
    }
    ok := true;
    var alignedStart := start / m * m;
    var alignedSize := size + (start - alignedStart);
    MulDiv(start / m, m);
    if alignedSize < m {
      return;
    }
    ghost var hi := Ceil(start + size, m);
    rest, cancel, alignedSize := CancelOverlapped(list, alignedStart, alignedSize, m, start / m + 1, hi);
    ghost var last := if Listed(list, hi) then hi else (start + size) / m;
    RunLength(start, start / m, size, hi, m);
    assert alignedSize / m == last - start / m && 0 <= alignedSize;
    up := NumberBlocks(alignedStart, alignedSize, m);
  }

  lemma RunLength(start: int, f: int, size: int, hi: int, m: int)
    requires 0 < m && 0 <= start && f == start / m && f * m + m <= start + size && hi == Ceil(start + size, m)
    ensures (hi * m - f * m) / m == hi - f && 0 <= hi * m - f * m
    ensures (start + size - f * m) / m == (start + size) / m - f
    ensures f < (start + size) / m <= hi
  {
    FloorSpan(start + size, f, m);
    CeilTop(start + size, hi, m);
    WholeSpan(hi, f, m);
  }

  lemma WholeSpan(hi: int, f: int, m: int)
    requires 0 < m && f <= hi
    ensures (hi * m - f * m) / m == hi - f && 0 <= hi * m - f * m
  {
    MulDiv(hi - f, m);
    MulLe(f, hi, m);
    assert (hi - f) * m == hi * m - f * m;
  }

  lemma FloorSpan(stop: int, f: int, m: int)
    requires 0 < m && 0 <= f && f * m + m <= stop
    ensures (stop - f * m) / m == stop / m - f && f < stop / m
  {
    var q := stop / m;
    assert (q - f) * m == q * m - f * m;
    DivUnique(stop - f * m, q - f, stop % m, m);
    MulLe(f + 1, q + 1, m);
    MulLe(f, f + 1, m);
  }

  // ---- dividing the whole file

  datatype Kind = Keep | Upload | Copy

  /** One part of the object under construction, and how its bytes get there. */
  datatype Planned = Planned(kind: Kind, file: FilePart)

  /** The parts of one kind as areas. */
  ghost function AreasOf(plan: seq<Planned>, kind: Kind): seq<MpPart> {
    if plan == [] then []
    else
      var front, q := AreasOf(plan[..|plan| - 1], kind), plan[|plan| - 1];
      if q.kind == kind then front + [MpPart(q.file.start, q.file.size, q.file.partNum)] else front
  }

  /** The parts that stay uploaded. */
  ghost function Keeps(plan: seq<Planned>): seq<FilePart> {
    if plan == [] then []
    else
      var front, q := Keeps(plan[..|plan| - 1]), plan[|plan| - 1];
      if q.kind == Keep then front + [q.file] else front
  }

  ghost function EndOf(plan: seq<Planned>): int {
    if plan == [] then 0 else plan[|plan| - 1].file.start + plan[|plan| - 1].file.size
  }

  /** q is part k + 1: it lies in block k + 1, except that a copy may reach into the next block and
      the upload behind such a copy starts late, but at least 5 MB before the block's end. */
  ghost predicate InPlace(q: Planned, k: int, m: int) {
    && q.file.partNum == k + 1 && q.file.isCopy == (q.kind == Copy) && 0 < q.file.size
    && match q.kind
       case Keep => IsBlock(q.file, m)
       case Upload => !q.file.uploaded && k * m <= q.file.start && q.file.start + q.file.size <= (k + 1) * m &&
                      (q.file.start == k * m || q.file.start <= (k + 1) * m - MIN_MULTIPART_SIZE)
       case Copy => !q.file.uploaded && q.file.start == k * m &&
                    (q.file.size <= m || (q.file.size <= FIVE_GB && q.file.size <= 2 * m - MIN_MULTIPART_SIZE))
  }

  /** The parts follow each other from byte 0, one for each block. */
  ghost predicate Tiling(plan: seq<Planned>, m: int) {
    plan == [] ||
    var front, q := plan[..|plan| - 1], plan[|plan| - 1];
    Tiling(front, m) && InPlace(q, |front|, m) && q.file.start == EndOf(front)
  }

  lemma TilingPush(plan: seq<Planned>, q: Planned, m: int)
    ensures Tiling(plan + [q], m) <==> Tiling(plan, m) && InPlace(q, |plan|, m) && q.file.start == EndOf(plan)
    ensures EndOf(plan + [q]) == q.file.start + q.file.size
  {
    assert (plan + [q])[..|plan|] == plan;
  }

  lemma AreasPush(plan: seq<Planned>, q: Planned, kind: Kind)
    ensures AreasOf(plan + [q], kind) ==
              AreasOf(plan, kind) + if q.kind == kind then [MpPart(q.file.start, q.file.size, q.file.partNum)] else []
    ensures Keeps(plan + [q]) == Keeps(plan) + if q.kind == Keep then [q.file] else []
  {
    assert (plan + [q])[..|plan|] == plan;
  }

  /** The areas of a kind lie within the planned bytes. */
  lemma {:induction false} AreasEnd(plan: seq<Planned>, kind: Kind, m: int)
    requires Tiling(plan, m)
    ensures 0 <= EndOf(plan) && (plan != [] ==> 0 < EndOf(plan))
    ensures var a := AreasOf(plan, kind);
            a != [] ==> a[|a| - 1].start + a[|a| - 1].size <= EndOf(plan)
  {
    if plan != [] {
      AreasEnd(plan[..|plan| - 1], kind, m);
    }
  }

  /** A last copy that ends where the plan ends is the plan's last part. */
  lemma LastCopy(plan: seq<Planned>, m: int)
    requires Tiling(plan, m) && AreasOf(plan, Copy) != []
    requires var a := AreasOf(plan, Copy); a[|a| - 1].start + a[|a| - 1].size == EndOf(plan)
    ensures plan != [] && plan[|plan| - 1].kind == Copy
  {
    if plan[|plan| - 1].kind != Copy {
      AreasEnd(plan[..|plan| - 1], Copy, m);
    }
  }

  /** The lists made for a flush. */
  datatype Lists = Lists(up: seq<MpPart>, copy: seq<MpPart>, down: seq<MpPart>, cancel: seq<FilePart>)

  /** Sorted disjoint areas in [0, stop). */
  ghost predicate Apart(ps: seq<MpPart>, stop: int) {
    if ps == [] then 0 <= stop
    else
      var p := ps[|ps| - 1];
      Apart(ps[..|ps| - 1], p.start) && 0 < p.size && p.start + p.size <= stop
  }

  lemma ApartPush(ps: seq<MpPart>, p: MpPart, stop: int)
    ensures Apart(ps + [p], stop) <==> Apart(ps, p.start) && 0 < p.size && p.start + p.size <= stop
  {
    assert (ps + [p])[..|ps|] == ps;
  }

  lemma {:induction false} ApartLater(ps: seq<MpPart>, stop: int, later: int)
    requires Apart(ps, stop) && stop <= later
    ensures Apart(ps, later) && 0 <= stop
    ensures forall b :: InMp(ps, b) ==> 0 <= b < stop
  {
    if ps != [] {
      ApartLater(ps[..|ps| - 1], ps[|ps| - 1].start, ps[|ps| - 1].start);
    }
  }

  /** Every untreated byte is uploaded, and so is every byte of a cancelled block. */
  ghost predicate Uploaded(ls: Lists, u: seq<Part>, stop: int) {
    && (forall b :: 0 <= b < stop && Holds(u, b) ==> InMp(ls.up, b))
    && (forall b :: InFiles(ls.cancel, b) ==> InMp(ls.up, b))
    && (forall b :: InMp(ls.up, b) ==> 0 <= b < stop)
  }

  /** Exactly the uploaded bytes that nobody wrote are fetched. */
  ghost predicate Fetched(ls: Lists, u: seq<Part>) {
    forall b :: InMp(ls.down, b) <==> InMp(ls.up, b) && !Holds(u, b) && !InFiles(ls.cancel, b)
  }

  /** The lists and the plan for the bytes below stop. */
  ghost predicate Divides(ls: Lists, plan: seq<Planned>, u: seq<Part>, stop: int, m: int, useCopy: bool) {
    && Tiling(plan, m) && EndOf(plan) == stop
    && ls.up == AreasOf(plan, Upload) && ls.copy == AreasOf(plan, Copy) && (!useCopy ==> ls.copy == [])
    && Uploaded(ls, u, stop) && Fetched(ls, u) && Apart(ls.down, stop) && (useCopy ==> AllWritten(ls.up, u))
  }

  ghost predicate NoneIn(u: seq<Part>, from: int, to: int) {
    forall b :: from <= b < to ==> !Holds(u, b)
  }

  /** Every area has an untreated byte. */
  ghost predicate AllWritten(ps: seq<MpPart>, u: seq<Part>) {
    forall i :: 0 <= i < |ps| ==> !NoneIn(u, ps[i].start, ps[i].start + ps[i].size)
  }

  // ---- the untreated bytes of one block

  /** Of the untreated list u, the parts from byte at on. */
  ghost predicate LaterBytes(u: seq<Part>, at: int, dup: seq<Part>) {
    && Separate(dup) && (dup != [] ==> at <= dup[0].start)
    && forall b :: Holds(dup, b) <==> Holds(u, b) && at <= b
  }

  /** cur holds the untreated bytes of the area. */
  ghost predicate AreaBytes(u: seq<Part>, start: int, size: int, cur: seq<Part>) {
    && (cur != [] ==>
          && Separate(cur) && start <= cur[0].start
          && cur[|cur| - 1].start + cur[|cur| - 1].size <= start + size)
    && forall b :: Holds(cur, b) <==> Holds(u, b) && start <= b < start + size
  }

  /** The parts of dup in [start, start + size) go to cur, cut at the end; the rest stays. */
  method TakeUntreated(ghost u: seq<Part>, dup: seq<Part>, start: int, size: int)
    returns (cur: seq<Part>, rest: seq<Part>)
    requires LaterBytes(u, start, dup) && 0 <= start && 0 < size
    ensures AreaBytes(u, start, size, cur) && LaterBytes(u, start + size, rest)
  {
    TakeStart(dup, start, start + size);
    TakenKeeps(dup, start, start + size, [], dup);
    cur, rest := TakeLoop(dup, start, size);
    TakenAll(dup, start, start + size, cur, rest);
  }

  method TakeLoop(dup: seq<Part>, start: int, size: int) returns (cur: seq<Part>, rest: seq<Part>)
    requires forall k :: 0 <= k < |dup| ==> start <= dup[k].start && 0 < dup[k].size
    ensures (cur, rest) == Taken([], dup, start + size)
  {
    cur, rest := [], dup;
    var i, stop := 0, false;
    while i < |rest| && !stop
      invariant i == 0 && Taken(cur, rest, start + size) == Taken([], dup, start + size)
      invariant forall k :: 0 <= k < |rest| ==> start <= rest[k].start && 0 < rest[k].size
      invariant stop && rest != [] ==> start + size <= rest[0].start
      decreases !stop, |rest| - i, if i < |rest| then rest[i].size else 0
    {
      cur, rest, i, stop := TakeTurn(start, size, cur, rest, i);
    }
  }

  /** What is taken in the end from rest, added to cur, and what stays. */
  ghost function Taken(cur: seq<Part>, rest: seq<Part>, stop: int): (seq<Part>, seq<Part>)
    decreases |rest|, if rest != [] && rest[0].size > 0 then rest[0].size else 0
  {
    if rest == [] || stop <= rest[0].start then (cur, rest)
    else Taken(cur + [Head(rest[0], stop)], Behind(rest, stop), stop)
  }

  lemma {:induction false} TakenKeeps(dup: seq<Part>, start: int, stop: int, cur: seq<Part>, rest: seq<Part>)
    requires TakenSoFar(dup, start, stop, cur, rest) && 0 <= start
    ensures var (c, r) := Taken(cur, rest, stop);
            TakenSoFar(dup, start, stop, c, r) && (r != [] ==> stop <= r[0].start)
    decreases |rest|, if rest != [] && rest[0].size > 0 then rest[0].size else 0
  {
    if rest != [] && rest[0].start < stop {
      TakeOne(dup, start, stop, cur, rest);
      TakenKeeps(dup, start, stop, cur + [Head(rest[0], stop)], Behind(rest, stop));
    }
  }

  /** One turn of that loop at the cursor i, which never moves: what lies in the area is erased. */
  method TakeTurn(start: int, size: int, cur: seq<Part>, rest: seq<Part>, i: nat)
    returns (cur': seq<Part>, rest': seq<Part>, i': int, stop: bool)
    requires i == 0 < |rest| && start <= rest[0].start && 0 < rest[0].size
    ensures i' == 0 && stop == (start + size <= rest[0].start)
    ensures stop ==> rest' == rest && cur' == cur
    ensures !stop ==> cur' == cur + [Head(rest[0], start + size)] && rest' == Behind(rest, start + size)
  {
    cur', rest', i', stop := cur, rest, i, false;
    if rest[i].start < start + size && start < rest[i].start + rest[i].size {
      cur', rest' := TakePart(start, size, cur, rest, i);
    } else if start + size - 1 < rest[i].start {
      stop := true;
    } else {
      i' := i + 1;
    }
  }

  /** One turn of that loop on the part at the cursor i. */
  method TakePart(start: int, size: int, cur: seq<Part>, rest: seq<Part>, i: nat)
    returns (cur': seq<Part>, rest': seq<Part>)
    requires i == 0 < |rest| && start <= rest[i].start
    ensures cur' == cur + [Head(rest[0], start + size)]
    ensures rest' == Behind(rest, start + size)
  {
    var p := rest[i];
    var s, n := p.start, p.size;
    if p.start < start {
      s, n := start, p.size - (start - p.start);
    }
    if s + n <= start + size {
      cur', rest' := cur + [MakePart(s, n, 0)], rest[..i] + rest[i + 1..];
    } else {
      n := (start + size) - s;
      cur', rest' := cur + [MakePart(s, n, 0)],
                     rest[i := p.(size := (p.start + p.size) - (start + size), start := s + n)];
    }
  }

  /** The bytes of p below stop, as TakePart records them. */
  ghost function Head(p: Part, stop: int): Part {
    MakePart(p.start, if p.start + p.size <= stop then p.size else stop - p.start, 0)
  }

  /** What is left of rest behind stop when its first part starts in front of stop. */
  ghost function Behind(rest: seq<Part>, stop: int): (r: seq<Part>)
    requires rest != []
  {
    if rest[0].start + rest[0].size <= stop then rest[1..]
    else rest[0 := rest[0].(size := (rest[0].start + rest[0].size) - stop, start := stop)]
  }

  lemma TakeStart(dup: seq<Part>, start: int, stop: int)
    requires Separate(dup) && (dup != [] ==> start <= dup[0].start)
    ensures TakenSoFar(dup, start, stop, [], dup)
  {
    assert forall b :: !Holds([], b);
  }

  lemma TakeOne(dup: seq<Part>, start: int, stop: int, cur: seq<Part>, rest: seq<Part>)
    requires TakenSoFar(dup, start, stop, cur, rest) && rest != [] && 0 <= start && rest[0].start < stop
    ensures TakenSoFar(dup, start, stop, cur + [Head(rest[0], stop)], Behind(rest, stop))
    ensures var rest' := Behind(rest, stop);
            |rest'| < |rest| || (|rest'| == |rest| && rest'[0].size < rest[0].size)
  {
    if rest[0].start + rest[0].size <= stop {
      TakeWhole(dup, start, stop, cur, rest);
    } else {
      TakeHead(dup, start, stop, cur, rest);
    }
  }

  /** cur and rest share out the bytes of dup: cur's are in the area, rest's come later. */
  ghost predicate TakenSoFar(dup: seq<Part>, start: int, stop: int, cur: seq<Part>, rest: seq<Part>) {
    && Separate(cur) && Separate(rest)
    && (forall b :: Holds(dup, b) <==> Holds(cur, b) || Holds(rest, b))
    && (cur != [] ==> start <= cur[0].start && cur[|cur| - 1].start + cur[|cur| - 1].size <= stop)
    && (rest != [] ==> start <= rest[0].start)
    && (rest != [] && rest[0].start < stop && cur != [] ==>
          cur[|cur| - 1].start + cur[|cur| - 1].size < rest[0].start)
  }

  lemma HoldsPush(ps: seq<Part>, p: Part)
    ensures forall b :: Holds(ps + [p], b) <==> Holds(ps, b) || p.Covers(b)
  {
    forall b ensures Holds(ps + [p], b) <==> Holds(ps, b) || p.Covers(b) {
      if k :| 0 <= k < |ps| && ps[k].Covers(b) { assert (ps + [p])[k].Covers(b); }
      if p.Covers(b) { assert (ps + [p])[|ps|].Covers(b); }
    }
  }

  lemma SeparatePush(ps: seq<Part>, p: Part)
    requires Separate(ps) && 0 <= p.start && 0 < p.size
    requires ps != [] ==> ps[|ps| - 1].start + ps[|ps| - 1].size < p.start
    ensures Separate(ps + [p])
  {
    forall j | 0 <= j < |ps| ensures ps[j].start + ps[j].size < p.start {
      if j < |ps| - 1 { assert ps[j].start + ps[j].size < ps[|ps| - 1].start; }
    }
  }

  lemma TakeWhole(dup: seq<Part>, start: int, stop: int, cur: seq<Part>, rest: seq<Part>)
    requires TakenSoFar(dup, start, stop, cur, rest) && rest != [] && 0 <= start
    requires rest[0].start + rest[0].size <= stop
    ensures TakenSoFar(dup, start, stop, cur + [Head(rest[0], stop)], rest[1..])
  {
    var q := Head(rest[0], stop);
    HoldsPush(cur, q);
    SeparatePush(cur, q);
    forall b ensures Holds(rest[1..], b) <==> Holds(rest, b) && !rest[0].Covers(b) { HoldsTail(rest, b); }
    forall b ensures rest[0].Covers(b) ==> Holds(rest, b) { HoldsAt(rest, 0, b); }
    TailSeparate(rest);
  }

  lemma TakeHead(dup: seq<Part>, start: int, stop: int, cur: seq<Part>, rest: seq<Part>)
    requires TakenSoFar(dup, start, stop, cur, rest) && rest != [] && 0 <= start
    requires rest[0].start < stop < rest[0].start + rest[0].size
    ensures TakenSoFar(dup, start, stop, cur + [Head(rest[0], stop)], Behind(rest, stop))
  {
    var q := Head(rest[0], stop);
    HoldsPush(cur, q);
    SeparatePush(cur, q);
    HeadCut(rest, stop);
  }

  lemma HeadCut(rest: seq<Part>, stop: int)
    requires Separate(rest) && rest != [] && rest[0].start < stop < rest[0].start + rest[0].size
    ensures Separate(Behind(rest, stop))
    ensures forall b :: Holds(rest, b) <==> Holds(Behind(rest, stop), b) || rest[0].start <= b < stop
  {
    var qs := Behind(rest, stop);
    forall b ensures Holds(rest, b) <==> Holds(qs, b) || rest[0].start <= b < stop {
      if k :| 0 <= k < |rest| && rest[k].Covers(b) {
        assert k > 0 ==> qs[k] == rest[k];
        assert k == 0 ==> b < stop || qs[0].Covers(b);
      }
      if rest[0].start <= b < stop { assert rest[0].Covers(b); }
      if k :| 0 <= k < |qs| && qs[k].Covers(b) {
        assert rest[k].Covers(b);
      }
    }
  }

  lemma HoldsRange(ps: seq<Part>)
    requires Separate(ps) && ps != []
    ensures forall b :: Holds(ps, b) ==> ps[0].start <= b < ps[|ps| - 1].start + ps[|ps| - 1].size
  {
  }

  lemma TakenAll(dup: seq<Part>, start: int, stop: int, cur: seq<Part>, rest: seq<Part>)
    requires TakenSoFar(dup, start, stop, cur, rest) && (rest != [] ==> stop <= rest[0].start)
    ensures forall b :: Holds(cur, b) <==> Holds(dup, b) && start <= b < stop
    ensures forall b :: Holds(rest, b) <==> Holds(dup, b) && stop <= b
  {
    if cur != [] { HoldsRange(cur); }
    if rest != [] { HoldsRange(rest); }
  }

  // ---- the uploaded block of one area

  ghost predicate Meets(p: FilePart, start: int, size: int) {
    start < p.start + p.size && p.start < start + size
  }

  /** The outcome of the search behind the cursor ui. */
  ghost predicate Searched(list: seq<FilePart>, ui: nat, start: int, size: int, ok: bool, found: bool, overlap: nat,
                           next: nat) {
    && ui <= next <= |list|
    && (found ==> ui <= overlap < next && Meets(list[overlap], start, size))
    && (forall i :: ui <= i < next && Meets(list[i], start, size) ==> found && i == overlap)
    && (forall i :: ui <= i < next ==> list[i].start < start + size)
    && (ok && next < |list| ==> start + size <= list[next].start)
    && (!ok ==> found && next < |list| && Meets(list[next], start, size))
  }

  /** Looks from the cursor ui on for the listed part that meets the area; two such parts are an
      error. next is the cursor afterwards. */
  method FindOverlap(list: seq<FilePart>, ui: nat, start: int, size: int)
    returns (ok: bool, found: bool, overlap: nat, next: nat)
    requires ui <= |list|
    ensures Searched(list, ui, start, size, ok, found, overlap, next)
  {
    ok, found, overlap, next := true, false, |list|, ui;
    while next < |list|
      invariant ui <= next <= |list| && ok
      invariant forall i :: ui <= i < next ==> list[i].start < start + size
      invariant found ==> ui <= overlap < next && Meets(list[overlap], start, size)
      invariant forall i :: ui <= i < next && Meets(list[i], start, size) ==> found && i == overlap
    {
      var p := list[next];
      if start < p.start + p.size && p.start < start + size {
        if found {
          return false, found, overlap, next;
        }
        found, overlap := true, next;
      } else if start + size - 1 < p.start {
        break;
      }
      next := next + 1;
    }
  }

  // ---- the gaps of a block with untreated bytes

  /** The gap in front of the first untreated byte goes to the copy part before the area. */
  predicate Absorbs(copy: seq<MpPart>, start: int, size: int, first: int, useCopy: bool) {
    && start < first && useCopy && copy != []
    && var last := copy[|copy| - 1];
       && last.start + last.size == start
       && last.size + (first - start) <= FIVE_GB
       && MIN_MULTIPART_SIZE <= (start + size) - first
  }

  ghost function Stretched(copy: seq<MpPart>, n: int): seq<MpPart>
    requires copy != []
  {
    copy[..|copy| - 1] + [copy[|copy| - 1].(size := copy[|copy| - 1].size + n)]
  }

  /** down' is down plus the bytes of [from, to) that are not in cur. */
  ghost predicate AddsGaps(down: seq<MpPart>, cur: seq<Part>, from: int, to: int, down': seq<MpPart>) {
    forall b :: InMp(down', b) <==> InMp(down, b) || (from <= b < to && !Holds(cur, b))
  }

  /** One turn of the gap loop: the gap between at and the untreated part cur[i] is fetched. */
  lemma GapStep(down: seq<MpPart>, cur: seq<Part>, i: nat, from: int, at: int, down': seq<MpPart>)
    requires Separate(cur) && i < |cur| && at <= cur[i].start && (i > 0 ==> at == cur[i - 1].start + cur[i - 1].size)
    requires i == 0 ==> from == at
    requires AddsGaps(down, cur, from, at, down') && from <= at
    ensures var gap := MpPart(at, cur[i].start - at, 0);
            AddsGaps(down, cur, from, cur[i].start + cur[i].size, if at < cur[i].start then down' + [gap] else down')
  {
    InMpPush(down', MpPart(at, cur[i].start - at, 0));
    forall b | at <= b < cur[i].start + cur[i].size ensures Holds(cur, b) <==> cur[i].start <= b {
      if cur[i].start <= b { assert cur[i].Covers(b); }
      if k :| 0 <= k < |cur| && cur[k].Covers(b) {
        if i < k { assert cur[i].start + cur[i].size < cur[k].start; }
      }
    }
  }

  /** The gap behind the last untreated part. */
  lemma GapEnd(down: seq<MpPart>, cur: seq<Part>, from: int, at: int, rest: int, down': seq<MpPart>)
    requires Separate(cur) && cur != [] && at == cur[|cur| - 1].start + cur[|cur| - 1].size
    requires from <= at && AddsGaps(down, cur, from, at, down') && 0 <= rest
    ensures AddsGaps(down, cur, from, at + rest, if 0 < rest then down' + [MpPart(at, rest, 0)] else down')
  {
    InMpPush(down', MpPart(at, rest, 0));
    HoldsRange(cur);
  }

  /** The untreated part cur[0] when the area starts with it or with a gap: the gap is absorbed by
      the last copy or fetched. */
  method FirstGap(start: int, size: int, first: Part, ls: Lists, useCopy: bool) returns (ls': Lists, s: int, n: int)
    requires start <= first.start
    ensures s + n == start + size
    ensures if Absorbs(ls.copy, start, size, first.start, useCopy)
            then s == first.start && ls' == ls.(copy := Stretched(ls.copy, s - start))
            else s == start && ls' == ls.(down := if start < first.start
                                          then ls.down + [MpPart(start, first.start - start, 0)] else ls.down)
  {
    ls', s, n := ls, start, size;
    if start < first.start {
      var merged := false;
      if useCopy && ls.copy != [] {
        var last := ls.copy[|ls.copy| - 1];
        if last.start + last.size == start && last.size + (first.start - start) <= FIVE_GB &&
           (start + size) - first.start >= MIN_MULTIPART_SIZE {
          ls' := ls.(copy := ls.copy[..|ls.copy| - 1] + [last.(size := last.size + (first.start - start))]);
          n := n - (first.start - s);
          s := first.start;
          merged := true;
        }
      }
      if !merged {
        ls' := ls.(down := ls.down + [MpPart(start, first.start - start, 0)]);
      }
    }
  }

  /** A block with untreated bytes that is not uploaded yet: what has to be fetched, and the area
      [s, s + n) to upload. */
  method PlanTouched(start: int, size: int, cur: seq<Part>, ls: Lists, useCopy: bool)
    returns (ls': Lists, s: int, n: int)
    requires Separate(cur) && cur != [] && start <= cur[0].start
    requires cur[|cur| - 1].start + cur[|cur| - 1].size <= start + size
    ensures s + n == start + size
    ensures if Absorbs(ls.copy, start, size, cur[0].start, useCopy)
            then s == cur[0].start && ls'.copy == Stretched(ls.copy, s - start)
            else s == start && ls'.copy == ls.copy
    ensures ls'.up == ls.up && ls'.cancel == ls.cancel
    ensures AddsGaps(ls.down, cur, s, start + size, ls'.down)
    ensures Apart(ls.down, start) ==> Apart(ls'.down, start + size)
  {
    ls', s, n := FirstGap(start, size, cur[0], ls, useCopy);
    FirstGapBytes(start, size, cur, ls, useCopy, ls', s);
    var down := LaterGaps(start, size, cur, ls'.down, ls.down, s);
    ls' := ls'.(down := down);
  }

  /** The gaps behind cur[0]. */
  method LaterGaps(start: int, size: int, cur: seq<Part>, first: seq<MpPart>, ghost down0: seq<MpPart>, ghost s: int)
    returns (down: seq<MpPart>)
    requires Separate(cur) && cur != [] && s <= cur[0].start
    requires cur[|cur| - 1].start + cur[|cur| - 1].size <= start + size
    requires AddsGaps(down0, cur, s, cur[0].start + cur[0].size, first)
    ensures AddsGaps(down0, cur, s, start + size, down)
    ensures Apart(first, cur[0].start + cur[0].size) ==> Apart(down, start + size)
  {
    down := first;
    var at, rest := cur[0].start + cur[0].size, (start + size) - (cur[0].start + cur[0].size);
    for i := 1 to |cur|
      invariant at == cur[i - 1].start + cur[i - 1].size && rest == start + size - at && s <= at
      invariant AddsGaps(down0, cur, s, at, down)
      invariant Apart(first, cur[0].start + cur[0].size) ==> Apart(down, at)
    {
      assert at < cur[i].start;
      GapStep(down0, cur, i, s, at, down);
      GapApart(down, at, cur[i].start, cur[i].start + cur[i].size);
      if at < cur[i].start {
        down := down + [MpPart(at, cur[i].start - at, 0)];
      }
      rest := (at + rest) - (cur[i].start + cur[i].size);
      at := cur[i].start + cur[i].size;
    }
    GapEnd(down0, cur, s, at, rest, down);
    GapApart(down, at, at + rest, at + rest);
    if 0 < rest {
      down := down + [MpPart(at, rest, 0)];
    }
  }

  lemma GapApart(down: seq<MpPart>, at: int, to: int, later: int)
    requires at <= to <= later
    ensures Apart(down, at) ==> Apart(if at < to then down + [MpPart(at, to - at, 0)] else down, later)
  {
    ApartPush(down, MpPart(at, to - at, 0), later);
    if Apart(down, at) { ApartLater(down, at, later); }
  }

  lemma {:induction false} FirstGapBytes(start: int, size: int, cur: seq<Part>, ls: Lists, useCopy: bool, ls': Lists,
                                         s: int)
    requires Separate(cur) && cur != [] && start <= cur[0].start
    requires if Absorbs(ls.copy, start, size, cur[0].start, useCopy)
             then s == cur[0].start && ls' == ls.(copy := Stretched(ls.copy, s - start))
             else s == start && ls' == ls.(down := if start < cur[0].start
                                           then ls.down + [MpPart(start, cur[0].start - start, 0)] else ls.down)
    ensures AddsGaps(ls.down, cur, s, cur[0].start + cur[0].size, ls'.down)
    ensures Apart(ls.down, start) ==> Apart(ls'.down, cur[0].start + cur[0].size)
  {
    GapStep(ls.down, cur, 0, s, s, ls.down);
    FirstGapApart(ls.down, start, cur[0].start, cur[0].start + cur[0].size);
  }

  lemma {:induction false} FirstGapApart(down: seq<MpPart>, at: int, to: int, later: int)
    requires at <= to <= later
    ensures Apart(down, at) ==> Apart(down, later)
    ensures Apart(down, at) ==> Apart(if at < to then down + [MpPart(at, to - at, 0)] else down, later)
  {
    GapApart(down, at, to, later);
    if Apart(down, at) { ApartLater(down, at, later); }
  }

  // ---- what one block adds to the plan

  ghost function NewPart(kind: Kind, start: int, size: int, num: int): Planned {
    Planned(kind, FilePart(false, start, size, kind == Copy, num))
  }

  lemma KeepStep(ls: Lists, plan: seq<Planned>, u: seq<Part>, at: int, m: int, useCopy: bool, p: FilePart)
    requires Divides(ls, plan, u, at, m, useCopy) && 0 < m
    requires IsBlock(p, m) && p.partNum == |plan| + 1 && p.start == at && NoneIn(u, at, at + m)
    ensures Divides(ls, plan + [Planned(Keep, p)], u, at + m, m, useCopy)
  {
    TilingPush(plan, Planned(Keep, p), m);
    AreasPush(plan, Planned(Keep, p), Upload);
    AreasPush(plan, Planned(Keep, p), Copy);
    ApartLater(ls.down, at, at + m);
  }

  lemma CopyStep(ls: Lists, plan: seq<Planned>, u: seq<Part>, at: int, n: int, m: int)
    requires Divides(ls, plan, u, at, m, true) && 0 < n <= m
    requires at == |plan| * m && NoneIn(u, at, at + n)
    ensures Divides(ls.(copy := ls.copy + [MpPart(at, n, |plan| + 1)]), plan + [NewPart(Copy, at, n, |plan| + 1)], u,
                    at + n, m, true)
  {
    var q := NewPart(Copy, at, n, |plan| + 1);
    TilingPush(plan, q, m);
    AreasPush(plan, q, Upload);
    AreasPush(plan, q, Copy);
    ApartLater(ls.down, at, at + n);
  }

  lemma UploadStep(ls: Lists, plan: seq<Planned>, u: seq<Part>, s: int, n: int, down: seq<MpPart>, m: int,
                   useCopy: bool)
    requires Divides(ls, plan, u, s, m, useCopy) && InPlace(NewPart(Upload, s, n, |plan| + 1), |plan|, m) && 0 <= s
    requires AddsGaps(ls.down, u, s, s + n, down) && Apart(down, s + n) && (useCopy ==> !NoneIn(u, s, s + n))
    ensures Divides(ls.(up := ls.up + [MpPart(s, n, |plan| + 1)], down := down),
                    plan + [NewPart(Upload, s, n, |plan| + 1)], u, s + n, m, useCopy)
  {
    var q := NewPart(Upload, s, n, |plan| + 1);
    TilingPush(plan, q, m);
    AreasPush(plan, q, Upload);
    AreasPush(plan, q, Copy);
    UploadBytes(ls, u, s, n, down, |plan| + 1);
  }

  lemma UploadBytes(ls: Lists, u: seq<Part>, s: int, n: int, down: seq<MpPart>, num: int)
    requires Uploaded(ls, u, s) && Fetched(ls, u) && AddsGaps(ls.down, u, s, s + n, down) && 0 <= s && 0 < n
    ensures var ls' := ls.(up := ls.up + [MpPart(s, n, num)], down := down);
            Uploaded(ls', u, s + n) && Fetched(ls', u)
  {
    var ls' := ls.(up := ls.up + [MpPart(s, n, num)], down := down);
    InMpPush(ls.up, MpPart(s, n, num));
    forall b ensures InMp(down, b) <==> InMp(ls'.up, b) && !Holds(u, b) && !InFiles(ls.cancel, b) {
      assert InMp(ls.up, b) ==> 0 <= b < s;
    }
  }

  lemma {:induction false} CancelledStep(ls: Lists, plan: seq<Planned>, u: seq<Part>, at: int, m: int, useCopy: bool,
                                         p: FilePart)
    requires Divides(ls, plan, u, at, m, useCopy) && at == |plan| * m && 0 < m
    requires IsBlock(p, m) && p.partNum == |plan| + 1 && !NoneIn(u, at, at + m)
    ensures Divides(ls.(up := ls.up + [MpPart(at, m, |plan| + 1)], cancel := ls.cancel + [p]),
                    plan + [NewPart(Upload, at, m, |plan| + 1)], u, at + m, m, useCopy)
  {
    var q := NewPart(Upload, at, m, |plan| + 1);
    MulLe(|plan|, |plan| + 1, m);
    TilingPush(plan, q, m);
    AreasPush(plan, q, Upload);
    AreasPush(plan, q, Copy);
    InMpPush(ls.up, MpPart(at, m, |plan| + 1));
    InFilesPush(ls.cancel, p);
    ApartLater(ls.down, at, at + m);
  }

  /** The last part of the plan takes n more bytes. */
  ghost function Longer(plan: seq<Planned>, n: int): seq<Planned>
    requires plan != []
  {
    var q := plan[|plan| - 1];
    plan[..|plan| - 1] + [q.(file := q.file.(size := q.file.size + n))]
  }

  lemma {:induction false} AbsorbStep(ls: Lists, plan: seq<Planned>, u: seq<Part>, at: int, n: int, s: int, m: int,
                                      useCopy: bool)
    requires Divides(ls, plan, u, at, m, useCopy) && at == |plan| * m && 0 < n <= m && MIN_MULTIPART_SIZE <= m
    requires Absorbs(ls.copy, at, n, s, useCopy) && NoneIn(u, at, s)
    requires plan != [] && plan[|plan| - 1].kind == Copy
    ensures Divides(ls.(copy := Stretched(ls.copy, s - at)), Longer(plan, s - at), u, s, m, useCopy)
  {
    var front, q := plan[..|plan| - 1], plan[|plan| - 1];
    var q' := q.(file := q.file.(size := q.file.size + (s - at)));
    CopyGrows(q, |front|, m, at, n, s, ls.copy[|ls.copy| - 1].size);
    TilingPush(front, q', m);
    AreasPush(front, q', Upload);
    AreasPush(front, q', Copy);
    UploadedLater(ls, u, at, s);
    ApartLater(ls.down, at, s);
  }

  lemma CopyGrows(q: Planned, k: nat, m: int, at: int, n: int, s: int, last: int)
    requires InPlace(q, k, m) && q.kind == Copy && q.file.start + q.file.size == at == (k + 1) * m
    requires at < s && MIN_MULTIPART_SIZE <= (at + n) - s && n <= m && last == q.file.size && last + (s - at) <= FIVE_GB
    ensures InPlace(q.(file := q.file.(size := q.file.size + (s - at))), k, m)
  {
    MulLe(k, k + 1, m);
  }

  lemma UploadedLater(ls: Lists, u: seq<Part>, at: int, s: int)
    requires Uploaded(ls, u, at) && NoneIn(u, at, s) && at <= s
    ensures Uploaded(ls, u, s)
  {
  }

  // ---- the division of the whole file

  /** p has an untreated byte. */
  ghost predicate Touched(p: FilePart, u: seq<Part>) {
    exists b :: p.Covers(b) && Holds(u, b)
  }

  /** The parts with an untreated byte, and the others. */
  ghost function TouchedOf(ps: seq<FilePart>, u: seq<Part>): seq<FilePart> {
    if ps == [] then []
    else
      var front, p := TouchedOf(ps[..|ps| - 1], u), ps[|ps| - 1];
      if Touched(p, u) then front + [p] else front
  }

  ghost function UntouchedOf(ps: seq<FilePart>, u: seq<Part>): seq<FilePart> {
    if ps == [] then []
    else
      var front, p := UntouchedOf(ps[..|ps| - 1], u), ps[|ps| - 1];
      if Touched(p, u) then front else front + [p]
  }

  /** How one area enters the lists: an uploaded block stays when nothing in it was written and is
      sent again otherwise; any other area is copied, or fetched where nobody wrote and sent. */
  ghost predicate Entered(start: int, size: int, num: int, cur: seq<Part>, list: seq<FilePart>, found: bool,
                          overlap: nat, next: nat, ls: Lists, useCopy: bool, list': seq<FilePart>, next': nat,
                              ls': Lists)
    requires found ==> overlap < |list|
  {
    if cur == [] then
      && list' == list && next' == next
      && ls' == if found then ls
                else if useCopy then ls.(copy := ls.copy + [MpPart(start, size, num)])
                else ls.(up := ls.up + [MpPart(start, size, num)], down := ls.down + [MpPart(start, size, 0)])
    else if found then
      && list' == list[..overlap] + list[overlap + 1..] && next' == overlap
      && ls' == ls.(up := ls.up + [MpPart(start, size, num)], cancel := ls.cancel + [list[overlap]])
    else
      var s := SendFrom(ls.copy, start, size, cur[0].start, useCopy);
      && list' == list && next' == next
      && ls' == Lists(ls.up + [MpPart(s, start + size - s, num)],
                      if s == start then ls.copy else Stretched(ls.copy, s - start), ls'.down, ls.cancel)
      && AddsGaps(ls.down, cur, s, start + size, ls'.down)
      && (Apart(ls.down, start) ==> Apart(ls'.down, start + size))
  }

  /** Where the upload of an area starts whose first untreated byte is first. */
  ghost function SendFrom(copy: seq<MpPart>, start: int, size: int, first: int, useCopy: bool): (s: int)
    ensures s != start ==> copy != [] && Absorbs(copy, start, size, first, useCopy) && s == first
  {
    if Absorbs(copy, start, size, first, useCopy) then first else start
  }

  /** Enters one area into the lists: num is its part number, cur its untreated parts, overlap the
      position of the uploaded block it meets, if found. */
  method PlanArea(start: int, size: int, num: int, cur: seq<Part>, list: seq<FilePart>, found: bool, overlap: nat,
                  next: nat, ls: Lists, wait: bool, useCopy: bool)
    returns (list': seq<FilePart>, next': nat, ls': Lists, wait': bool)
    requires found ==> overlap < |list|
    requires cur != [] ==>
               Separate(cur) && start <= cur[0].start && cur[|cur| - 1].start + cur[|cur| - 1].size <= start + size
    ensures Entered(start, size, num, cur, list, found, overlap, next, ls, useCopy, list', next', ls')
    ensures wait' == (wait || (cur != [] && found && !list[overlap].uploaded))
  {
    list', next', ls', wait' := list, next, ls, wait;
    if cur == [] {
      if !found {
        if useCopy {
          ls' := ls.(copy := ls.copy + [MpPart(start, size, num)]);
        } else {
          ls' := ls.(up := ls.up + [MpPart(start, size, num)], down := ls.down + [MpPart(start, size, 0)]);
        }
      }
    } else if found {
      if !list[overlap].uploaded {
        wait' := true;
      }
      ls' := ls.(up := ls.up + [MpPart(start, size, num)], cancel := ls.cancel + [list[overlap]]);
      list', next' := list[..overlap] + list[overlap + 1..], overlap;
    } else {
      var s, n;
      ls', s, n := PlanTouched(start, size, cur, ls, useCopy);
      ls' := ls'.(up := ls'.up + [MpPart(s, n, num)]);
    }
  }

  /** Where the division stands: the first j listed parts and the blocks below at are settled. */
  ghost predicate Settled(orig: seq<FilePart>, u: seq<Part>, list: seq<FilePart>, ui: nat, j: nat, plan: seq<Planned>,
                          ls: Lists) {
    && j <= |orig| && ui <= |list|
    && list[..ui] == Keeps(plan) == UntouchedOf(orig[..j], u) && ls.cancel == TouchedOf(orig[..j], u)
    && list[ui..] == orig[j..] && (forall i :: j <= i < |orig| ==> |plan| < orig[i].partNum)
  }

  lemma BlockMeets(p: FilePart, k: int, size: int, m: int)
    requires IsBlock(p, m) && 0 <= k < p.partNum && 0 < size <= m
    ensures Meets(p, k * m, size) <==> p.partNum == k + 1
    ensures p.start < k * m + size <==> p.partNum == k + 1
    ensures p.partNum == k + 1 ==> p.start == k * m && p.start + p.size == (k + 1) * m
  {
    MulLe(k, p.partNum - 1, m);
    MulLe(k + 1, p.partNum - 1, m);
  }

  lemma FoundBlock(orig: seq<FilePart>, u: seq<Part>, list: seq<FilePart>, ui: nat, j: nat, plan: seq<Planned>,
                   ls: Lists, size: int, m: int, ok: bool, found: bool, overlap: nat, next: nat)
    requires Settled(orig, u, list, ui, j, plan, ls) && Blocks(orig, m) && 0 < size <= m
    requires Searched(list, ui, |plan| * m, size, ok, found, overlap, next)
    ensures ok
    ensures found ==>
              && overlap == ui && next == ui + 1
              && j < |orig| && list[ui] == orig[j] && orig[j].partNum == |plan| + 1
    ensures !found ==> next == ui && (forall i :: j <= i < |orig| ==> |plan| + 1 < orig[i].partNum)
  {
    var k := |plan|;
    var d := ui - j;
    forall i | ui <= i < |list|
      ensures list[i] == orig[i - d]
      ensures Meets(list[i], k * m, size) <==> list[i].partNum == k + 1
      ensures list[i].start < k * m + size <==> list[i].partNum == k + 1
      ensures i > ui ==> list[i].partNum > k + 1
    {
      assert list[i] == list[ui..][i - ui] == orig[j..][i - ui];
      assert orig[i - d] in orig;
      BlockMeets(list[i], k, size, m);
      if i > ui { assert orig[j].partNum < orig[i - d].partNum; }
    }
    forall i | j <= i < |orig| ensures orig[i] == list[i + d] {
      assert list[ui..][i - j] == orig[j..][i - j];
    }
    if ui + 1 < |list| { assert !(list[ui + 1].start < k * m + size); }
    if ui < |list| { assert list[ui].start < k * m + size <==> list[ui].partNum == k + 1; }
  }

  lemma SettledOne(orig: seq<FilePart>, u: seq<Part>, j: nat)
    requires j < |orig|
    ensures UntouchedOf(orig[..j + 1], u) == UntouchedOf(orig[..j], u) + if Touched(orig[j], u) then [] else [orig[j]]
    ensures TouchedOf(orig[..j + 1], u) == TouchedOf(orig[..j], u) + if Touched(orig[j], u) then [orig[j]] else []
  {
    assert orig[..j + 1][..j] == orig[..j];
  }

  ghost predicate NeedsWait(cancel: seq<FilePart>) {
    exists p :: p in cancel && !p.uploaded
  }

  lemma NeedsWaitPush(cancel: seq<FilePart>, p: FilePart)
    ensures NeedsWait(cancel + [p]) <==> NeedsWait(cancel) || !p.uploaded
  {
    assert p in cancel + [p];
    if q :| q in cancel && !q.uploaded { assert q in cancel + [p]; }
  }

  /** The uploaded block of the area, if there is one, is kept or cancelled as its bytes say. */
  lemma SettleFound(orig: seq<FilePart>, u: seq<Part>, list: seq<FilePart>, ui: nat, j: nat, plan: seq<Planned>,
                    ls: Lists, at: int, m: int, useCopy: bool, cur: seq<Part>)
    requires Settled(orig, u, list, ui, j, plan, ls) && Divides(ls, plan, u, at, m, useCopy)
    requires Blocks(orig, m) && 0 < m && at == |plan| * m && AreaBytes(u, at, m, cur)
    requires j < |orig| && ui < |list| && list[ui] == orig[j] && orig[j].partNum == |plan| + 1
    ensures cur == [] ==> var plan' := plan + [Planned(Keep, orig[j])];
              Settled(orig, u, list, ui + 1, j + 1, plan', ls) && Divides(ls, plan', u, at + m, m, useCopy)
    ensures cur != [] ==>
              var plan' := plan + [NewPart(Upload, at, m, |plan| + 1)];
              var ls' := ls.(up := ls.up + [MpPart(at, m, |plan| + 1)], cancel := ls.cancel + [orig[j]]);
              && Settled(orig, u, list[..ui] + list[ui + 1..], ui, j + 1, plan', ls')
              && Divides(ls', plan', u, at + m, m, useCopy)
  {
    var p := orig[j];
    assert p in orig;
    SettledOne(orig, u, j);
    CursorStep(orig, j, list, ui);
    TouchedHere(p, u, at, m, cur);
    if cur == [] {
      KeepStep(ls, plan, u, at, m, useCopy, p);
      AreasPush(plan, Planned(Keep, p), Keep);
    } else {
      CancelledStep(ls, plan, u, at, m, useCopy, p);
      AreasPush(plan, NewPart(Upload, at, m, |plan| + 1), Keep);
    }
  }

  lemma TouchedHere(p: FilePart, u: seq<Part>, at: int, m: int, cur: seq<Part>)
    requires p.start == at && p.size == m && AreaBytes(u, at, m, cur)
    ensures Touched(p, u) <==> cur != []
    ensures cur == [] <==> NoneIn(u, at, at + m)
  {
    if cur != [] {
      assert cur[0].Covers(cur[0].start);
      assert Holds(cur, cur[0].start);
      assert p.Covers(cur[0].start);
    }
    if b :| p.Covers(b) && Holds(u, b) { assert Holds(cur, b); }
  }

  lemma NoneHere(u: seq<Part>, at: int, n: int, cur: seq<Part>)
    requires AreaBytes(u, at, n, cur)
    ensures cur == [] ==> NoneIn(u, at, at + n)
    ensures cur != [] ==> NoneIn(u, at, cur[0].start) && Holds(u, cur[0].start) && cur[0].start < at + n
  {
    if cur == [] {
      forall b | at <= b < at + n ensures !Holds(u, b) { assert !Holds(cur, b); }
    } else {
      HoldsRange(cur);
      forall b | at <= b < cur[0].start ensures !Holds(u, b) {
        assert cur[0].start < cur[|cur| - 1].start + cur[|cur| - 1].size by { HoldsAt(cur, 0, cur[0].start); }
        assert !Holds(cur, b);
      }
    }
  }

  /** An area without an uploaded block and without untreated bytes. */
  lemma SettleClean(orig: seq<FilePart>, u: seq<Part>, list: seq<FilePart>, ui: nat, j: nat, plan: seq<Planned>,
                    ls: Lists, at: int, n: int, m: int, useCopy: bool)
    requires Settled(orig, u, list, ui, j, plan, ls) && Divides(ls, plan, u, at, m, useCopy)
    requires 0 < n <= m && at == |plan| * m && NoneIn(u, at, at + n) && 0 <= at
    requires forall i :: j <= i < |orig| ==> |plan| + 1 < orig[i].partNum
    ensures var plan' := plan + [NewPart(if useCopy then Copy else Upload, at, n, |plan| + 1)];
            var ls' := if useCopy then ls.(copy := ls.copy + [MpPart(at, n, |plan| + 1)])
                       else ls.(up := ls.up + [MpPart(at, n, |plan| + 1)], down := ls.down + [MpPart(at, n, 0)]);
            Settled(orig, u, list, ui, j, plan', ls') && Divides(ls', plan', u, at + n, m, useCopy)
  {
    AreasPush(plan, NewPart(if useCopy then Copy else Upload, at, n, |plan| + 1), Keep);
    if useCopy {
      CopyStep(ls, plan, u, at, n, m);
    } else {
      MulLe(|plan|, |plan| + 1, m);
      InMpPush(ls.down, MpPart(at, n, 0));
      ApartPush(ls.down, MpPart(at, n, 0), at + n);
      UploadStep(ls, plan, u, at, n, ls.down + [MpPart(at, n, 0)], m, useCopy);
    }
  }

  lemma WrittenGaps(u: seq<Part>, at: int, n: int, cur: seq<Part>, s: int, down: seq<MpPart>, down': seq<MpPart>)
    requires AreaBytes(u, at, n, cur) && at <= s && AddsGaps(down, cur, s, at + n, down')
    ensures AddsGaps(down, u, s, at + n, down')
  {
  }

  lemma WrittenArea(u: seq<Part>, at: int, n: int, cur: seq<Part>, s: int)
    requires AreaBytes(u, at, n, cur) && cur != [] && (s == at || s == cur[0].start)
    ensures !NoneIn(u, s, at + n) && (s != at ==> NoneIn(u, at, s))
  {
    NoneHere(u, at, n, cur);
  }

  lemma SettleWhole(orig: seq<FilePart>, u: seq<Part>, list: seq<FilePart>, ui: nat, j: nat, plan: seq<Planned>,
                    ls: Lists, at: int, n: int, m: int, useCopy: bool, down: seq<MpPart>)
    requires Settled(orig, u, list, ui, j, plan, ls) && Divides(ls, plan, u, at, m, useCopy)
    requires 0 < n <= m && at == |plan| * m && 0 <= at && MIN_MULTIPART_SIZE <= m
    requires forall i :: j <= i < |orig| ==> |plan| + 1 < orig[i].partNum
    requires AddsGaps(ls.down, u, at, at + n, down) && Apart(down, at + n) && !NoneIn(u, at, at + n)
    ensures var plan' := plan + [NewPart(Upload, at, n, |plan| + 1)];
            var ls' := ls.(up := ls.up + [MpPart(at, n, |plan| + 1)], down := down);
            Settled(orig, u, list, ui, j, plan', ls') && Divides(ls', plan', u, at + n, m, useCopy)
  {
    MulLe(|plan|, |plan| + 1, m);
    UploadStep(ls, plan, u, at, n, down, m, useCopy);
    AreasPush(plan, NewPart(Upload, at, n, |plan| + 1), Keep);
  }

  lemma SettleAbsorbed(orig: seq<FilePart>, u: seq<Part>, list: seq<FilePart>, ui: nat, j: nat, plan: seq<Planned>,
                       ls: Lists, at: int, n: int, m: int, useCopy: bool, s: int, ls': Lists)
    requires Settled(orig, u, list, ui, j, plan, ls) && Divides(ls, plan, u, at, m, useCopy)
    requires 0 < n <= m && at == |plan| * m && 0 <= at && MIN_MULTIPART_SIZE <= m
    requires forall i :: j <= i < |orig| ==> |plan| + 1 < orig[i].partNum
    requires NoneIn(u, at, s) && Absorbs(ls.copy, at, n, s, useCopy)
    requires ls' == Lists(ls.up + [MpPart(s, at + n - s, |plan| + 1)], Stretched(ls.copy, s - at), ls'.down, ls.cancel)
    requires AddsGaps(ls.down, u, s, at + n, ls'.down) && Apart(ls'.down, at + n) && !NoneIn(u, s, at + n)
    ensures plan != []
    ensures var plan' := Longer(plan, s - at) + [NewPart(Upload, s, at + n - s, |plan| + 1)];
            Settled(orig, u, list, ui, j, plan', ls') && Divides(ls', plan', u, at + n, m, useCopy)
  {
    LastCopy(plan, m);
    AbsorbedDivides(ls, plan, u, at, n, m, useCopy, s, ls');
    LongerKeeps(plan, s - at);
    AreasPush(Longer(plan, s - at), NewPart(Upload, s, at + n - s, |plan| + 1), Keep);
  }

  lemma {:induction false} AbsorbedDivides(ls: Lists, plan: seq<Planned>, u: seq<Part>, at: int, n: int, m: int,
                                           useCopy: bool, s: int,
                        ls': Lists)
    requires Divides(ls, plan, u, at, m, useCopy) && plan != [] && plan[|plan| - 1].kind == Copy
    requires 0 < n <= m && at == |plan| * m && 0 <= at && MIN_MULTIPART_SIZE <= m
    requires NoneIn(u, at, s) && Absorbs(ls.copy, at, n, s, useCopy)
    requires ls' == Lists(ls.up + [MpPart(s, at + n - s, |plan| + 1)], Stretched(ls.copy, s - at), ls'.down, ls.cancel)
    requires AddsGaps(ls.down, u, s, at + n, ls'.down) && Apart(ls'.down, at + n) && !NoneIn(u, s, at + n)
    ensures Divides(ls', Longer(plan, s - at) + [NewPart(Upload, s, at + n - s, |plan| + 1)], u, at + n, m, useCopy)
  {
    AbsorbStep(ls, plan, u, at, n, s, m, useCopy);
    LateUpload(|plan|, m, at, n, s);
    var mid := ls.(copy := Stretched(ls.copy, s - at));
    assert ls' == mid.(up := mid.up + [MpPart(s, at + n - s, |plan| + 1)], down := ls'.down);
    UploadStep(mid, Longer(plan, s - at), u, s, at + n - s, ls'.down, m, useCopy);
  }

  lemma LateUpload(k: nat, m: int, at: int, n: int, s: int)
    requires at == k * m && 0 < n <= m && at < s && MIN_MULTIPART_SIZE <= at + n - s
    ensures InPlace(NewPart(Upload, s, at + n - s, k + 1), k, m)
  {
    MulLe(k, k + 1, m);
  }

  lemma LongerKeeps(plan: seq<Planned>, n: int)
    requires plan != [] && plan[|plan| - 1].kind == Copy
    ensures Keeps(Longer(plan, n)) == Keeps(plan)
  {
    var front, q := plan[..|plan| - 1], plan[|plan| - 1];
    AreasPush(front, q.(file := q.file.(size := q.file.size + n)), Keep);
  }

  lemma CeilNext(k: nat, n: int, m: int)
    requires 0 < n <= m
    ensures Ceil(k * m + n, m) == k + 1 && (n == m ==> k * m + n == (k + 1) * m) && 0 <= k * m
  {
    MulLe(k, k + 1, m);
    MulLe(0, k, m);
    CeilLe(k * m + n, k + 1, m);
    CeilLe(k * m + n, k, m);
  }

  /** The division below byte at, which is the start of block k + 1 or the end of the file. */
  ghost predicate Standing(orig: seq<FilePart>, u: seq<Part>, list: seq<FilePart>, ui: nat, j: nat, plan: seq<Planned>,
                           ls: Lists, at: int, m: int, useCopy: bool) {
    0 < m && 0 <= at && Settled(orig, u, list, ui, j, plan, ls) && Divides(ls, plan, u, at, m, useCopy)
        && |plan| == Ceil(at, m) && GapsRight(plan, u, ls.cancel, m)
  }

  // ---- where an upload starts

  /** x is the first untreated byte of [from, to). */
  ghost predicate FirstWritten(u: seq<Part>, from: int, to: int, x: int) {
    from <= x < to && Holds(u, x) && NoneIn(u, from, x)
  }

  /** The bytes of [at, x), in front of what was written in a block, go to the copy of the block before. */
  ghost predicate Joins(behindCopy: bool, at: int, x: int, end: int, m: int) {
    behindCopy && at < x && m + (x - at) <= FIVE_GB && MIN_MULTIPART_SIZE <= end - x
  }

  /** f, the upload of the block at byte at, starts with the block unless its first gap goes to the copy. */
  ghost predicate StartsRight(f: FilePart, behindCopy: bool, u: seq<Part>, at: int, end: int, m: int) {
    && (NoneIn(u, at, end) ==> f.start == at)
    && forall x :: FirstWritten(u, at, end, x) ==> f.start == if Joins(behindCopy, at, x, end, m) then x else at
  }

  ghost predicate GapRight(plan: seq<Planned>, u: seq<Part>, cancel: seq<FilePart>, m: int, k: nat)
    requires k < |plan|
  {
    plan[k].kind == Upload && !Listed(cancel, k + 1) ==>
      var f := plan[k].file;
      StartsRight(f, k > 0 && plan[k - 1].kind == Copy, u, k * m, f.start + f.size, m)
  }

  /** Every upload of a block that was not uploaded before starts where it should. */
  ghost predicate GapsRight(plan: seq<Planned>, u: seq<Part>, cancel: seq<FilePart>, m: int) {
    forall k :: 0 <= k < |plan| ==> GapRight(plan, u, cancel, m, k)
  }

  lemma GapsPush(plan: seq<Planned>, q: Planned, u: seq<Part>, cancel: seq<FilePart>, cancel': seq<FilePart>, m: int)
    requires GapsRight(plan, u, cancel, m)
    requires cancel' == cancel || exists p: FilePart :: p.partNum == |plan| + 1 && cancel' == cancel + [p]
    requires GapRight(plan + [q], u, cancel', m, |plan|)
    ensures GapsRight(plan + [q], u, cancel', m)
  {
    forall k | 0 <= k < |plan| ensures GapRight(plan + [q], u, cancel', m, k) {
      assert GapRight(plan, u, cancel, m, k);
      if cancel' != cancel {
        var p: FilePart :| p.partNum == |plan| + 1 && cancel' == cancel + [p];
        if Listed(cancel, k + 1) {
          var r :| r in cancel && r.partNum == k + 1;
          assert r in cancel';
        }
      }
    }
  }

  lemma GapsLonger(plan: seq<Planned>, n: int, u: seq<Part>, cancel: seq<FilePart>, m: int)
    requires GapsRight(plan, u, cancel, m) && plan != [] && plan[|plan| - 1].kind == Copy
    ensures GapsRight(Longer(plan, n), u, cancel, m)
  {
    forall k | 0 <= k < |plan| ensures GapRight(Longer(plan, n), u, cancel, m, k) {
      assert GapRight(plan, u, cancel, m, k);
    }
  }

  /** Absorbing is joining the copy of the block before. */
  lemma AbsorbsIs(ls: Lists, plan: seq<Planned>, u: seq<Part>, at: int, n: int, m: int, useCopy: bool, x: int)
    requires Divides(ls, plan, u, at, m, useCopy) && at == |plan| * m && 0 < m
    ensures Absorbs(ls.copy, at, n, x, useCopy) <==>
              Joins(plan != [] && plan[|plan| - 1].kind == Copy, at, x, at + n, m)
  {
    if plan != [] && plan[|plan| - 1].kind == Copy {
      var q := plan[|plan| - 1];
      assert q.file.start == (|plan| - 1) * m && q.file.start + q.file.size == at;
      assert |plan| * m == (|plan| - 1) * m + m;
    } else if ls.copy != [] && ls.copy[|ls.copy| - 1].start + ls.copy[|ls.copy| - 1].size == at {
      LastCopy(plan, m);
    }
  }

  lemma OneFirst(u: seq<Part>, from: int, to: int, x: int)
    requires FirstWritten(u, from, to, x)
    ensures !NoneIn(u, from, to) && forall y :: FirstWritten(u, from, to, y) ==> y == x
  {
    forall y | FirstWritten(u, from, to, y) ensures y == x {
      assert (y < x ==> !Holds(u, y)) && (x < y ==> !Holds(u, x));
    }
  }

  /** One area of the division: the block of m bytes at start, or the shorter rest of the file. */
  method DivideArea(start: int, size: int, m: int, cur: seq<Part>, list: seq<FilePart>, ui: nat, ls: Lists, wait: bool,
                    useCopy: bool)
    returns (ok: bool, list': seq<FilePart>, ui': nat, ls': Lists, wait': bool, ghost found: bool, ghost overlap: nat,
             ghost next: nat)
    requires 0 <= start && 0 < m && ui <= |list| && wait == NeedsWait(ls.cancel)
    requires cur != [] ==>
               Separate(cur) && start <= cur[0].start && cur[|cur| - 1].start + cur[|cur| - 1].size <= start + size
    ensures Searched(list, ui, start, size, ok, found, overlap, next)
    ensures ok ==> Entered(start, size, start / m + 1, cur, list, found, overlap, next, ls, useCopy, list', ui', ls')
    ensures ui' <= |list'| && wait' == NeedsWait(ls'.cancel)
  {
    list', ui', ls', wait' := list, ui, ls, wait;
    var isOverlap, at, behind;
    ok, isOverlap, at, behind := FindOverlap(list, ui, start, size);
    found, overlap, next := isOverlap, at, behind;
    if !ok {
      return;
    }
    list', ui', ls', wait' := PlanArea(start, size, start / m + 1, cur, list, isOverlap, at, behind, ls, wait, useCopy);
    if cur != [] && isOverlap { NeedsWaitPush(ls.cancel, list[at]); }
  }

  /** The size of the area at start. */
  ghost predicate AreaSize(start: int, size: int, fileSize: int, m: int) {
    0 < m && 0 <= start < fileSize && start % m == 0 && size == if start + m <= fileSize then m else fileSize - start
  }

  /** The area at start is block k + 1, or what the file has of it. */
  ghost predicate IsArea(start: int, size: int, k: int, m: int) {
    0 <= start == k * m && 0 < size <= m && Ceil(start + size, m) == k + 1
  }

  lemma AreaStart(start: int, size: int, fileSize: int, k: int, m: int)
    requires AreaSize(start, size, fileSize, m) && k == Ceil(start, m)
    ensures IsArea(start, size, k, m) && start / m == k
  {
    assert start == k * m;
    CeilNext(k, size, m);
  }

  lemma {:induction false} StandsFound(orig: seq<FilePart>, u: seq<Part>, list: seq<FilePart>, ui: nat, j: nat,
                                       plan: seq<Planned>,
                    ls: Lists, fileSize: int, start: int, size: int, m: int, useCopy: bool, cur: seq<Part>,
                        list': seq<FilePart>, ui': nat, ls': Lists) returns (plan': seq<Planned>)
    requires Blocks(orig, m) && EndsBy(orig, fileSize) && Standing(orig, u, list, ui, j, plan, ls, start, m, useCopy)
    requires IsArea(start, size, |plan|, m) && AreaBytes(u, start, size, cur)
             && size == (if start + m <= fileSize then m else fileSize - start)
    requires j < |orig| && ui < |list| && list[ui] == orig[j] && orig[j].partNum == |plan| + 1
    requires Entered(start, size, |plan| + 1, cur, list, true, ui, ui + 1, ls, useCopy, list', ui', ls')
    ensures Standing(orig, u, list', ui', j + 1, plan', ls', start + size, m, useCopy)
  {
    BlockFits(orig, j, fileSize, |plan|, m);
    SettleFound(orig, u, list, ui, j, plan, ls, start, m, useCopy, cur);
    var q := if cur == [] then Planned(Keep, orig[j]) else NewPart(Upload, start, m, |plan| + 1);
    plan' := plan + [q];
    if cur != [] { assert orig[j] in ls'.cancel; }
    GapsPush(plan, q, u, ls.cancel, ls'.cancel, m);
  }

  lemma {:induction false} StandsClean(orig: seq<FilePart>, u: seq<Part>, list: seq<FilePart>, ui: nat, j: nat,
                                       plan: seq<Planned>,
                    ls: Lists, start: int, size: int, m: int, useCopy: bool, list': seq<FilePart>, ui': nat, ls': Lists)
                      returns (plan': seq<Planned>)
    requires Standing(orig, u, list, ui, j, plan, ls, start, m, useCopy)
    requires IsArea(start, size, |plan|, m) && AreaBytes(u, start, size, [])
    requires forall i :: j <= i < |orig| ==> |plan| + 1 < orig[i].partNum
    requires Entered(start, size, |plan| + 1, [], list, false, ui, ui, ls, useCopy, list', ui', ls')
    ensures Standing(orig, u, list', ui', j, plan', ls', start + size, m, useCopy)
  {
    NoneHere(u, start, size, []);
    SettleClean(orig, u, list, ui, j, plan, ls, start, size, m, useCopy);
    var q := NewPart(if useCopy then Copy else Upload, start, size, |plan| + 1);
    plan' := plan + [q];
    GapsPush(plan, q, u, ls.cancel, ls'.cancel, m);
  }

  lemma {:induction false} StandsWhole(orig: seq<FilePart>, u: seq<Part>, list: seq<FilePart>, ui: nat, j: nat,
                                       plan: seq<Planned>,
                    ls: Lists, start: int, size: int, m: int, useCopy: bool, cur: seq<Part>, list': seq<FilePart>,
                        ui': nat, ls': Lists) returns (plan': seq<Planned>)
    requires Standing(orig, u, list, ui, j, plan, ls, start, m, useCopy)
    requires MIN_MULTIPART_SIZE <= m && IsArea(start, size, |plan|, m) && AreaBytes(u, start, size, cur) && cur != []
    requires forall i :: j <= i < |orig| ==> |plan| + 1 < orig[i].partNum
    requires Entered(start, size, |plan| + 1, cur, list, false, ui, ui, ls, useCopy, list', ui', ls')
    requires !Absorbs(ls.copy, start, size, cur[0].start, useCopy)
    ensures Standing(orig, u, list', ui', j, plan', ls', start + size, m, useCopy)
  {
    assert ls' == ls.(up := ls.up + [MpPart(start, size, |plan| + 1)], down := ls'.down);
    WrittenGaps(u, start, size, cur, start, ls.down, ls'.down);
    WrittenArea(u, start, size, cur, start);
    SettleWhole(orig, u, list, ui, j, plan, ls, start, size, m, useCopy, ls'.down);
    plan' := plan + [NewPart(Upload, start, size, |plan| + 1)];
    NoneHere(u, start, size, cur);
    AbsorbsIs(ls, plan, u, start, size, m, useCopy, cur[0].start);
    WholeGaps(plan, u, ls.cancel, start, size, cur[0].start, m);
  }

  lemma WholeGaps(plan: seq<Planned>, u: seq<Part>, cancel: seq<FilePart>, at: int, n: int, x: int, m: int)
    requires GapsRight(plan, u, cancel, m) && at == |plan| * m && FirstWritten(u, at, at + n, x)
    requires !Joins(plan != [] && plan[|plan| - 1].kind == Copy, at, x, at + n, m)
    ensures GapsRight(plan + [NewPart(Upload, at, n, |plan| + 1)], u, cancel, m)
  {
    OneFirst(u, at, at + n, x);
    GapsPush(plan, NewPart(Upload, at, n, |plan| + 1), u, cancel, cancel, m);
  }

  lemma {:induction false} StandsLate(orig: seq<FilePart>, u: seq<Part>, list: seq<FilePart>, ui: nat, j: nat,
                                      plan: seq<Planned>,
                   ls: Lists, start: int, size: int, m: int, useCopy: bool, cur: seq<Part>, list': seq<FilePart>,
                       ui': nat, ls': Lists) returns (plan': seq<Planned>)
    requires Standing(orig, u, list, ui, j, plan, ls, start, m, useCopy)
    requires MIN_MULTIPART_SIZE <= m && IsArea(start, size, |plan|, m) && AreaBytes(u, start, size, cur) && cur != []
    requires forall i :: j <= i < |orig| ==> |plan| + 1 < orig[i].partNum
    requires Entered(start, size, |plan| + 1, cur, list, false, ui, ui, ls, useCopy, list', ui', ls')
    requires Absorbs(ls.copy, start, size, cur[0].start, useCopy)
    ensures Standing(orig, u, list', ui', j, plan', ls', start + size, m, useCopy)
  {
    var s := cur[0].start;
    LateLists(u, start, size, |plan| + 1, cur, list, ui, ls, useCopy, list', ui', ls');
    plan' := LatePlan(orig, u, list, ui, j, plan, ls, start, size, m, useCopy, s, ls');
  }

  /** What an absorbed gap makes of the lists. */
  lemma {:induction false} LateLists(u: seq<Part>, at: int, n: int, num: int, cur: seq<Part>, list: seq<FilePart>,
                                     ui: nat, ls: Lists, useCopy: bool, list': seq<FilePart>, ui': nat, ls': Lists)
    requires AreaBytes(u, at, n, cur) && cur != [] && Absorbs(ls.copy, at, n, cur[0].start, useCopy)
    requires Entered(at, n, num, cur, list, false, ui, ui, ls, useCopy, list', ui', ls') && Apart(ls.down, at)
    ensures var s := cur[0].start;
            && list' == list && ui' == ui && FirstWritten(u, at, at + n, s) && !NoneIn(u, s, at + n)
            && ls' == Lists(ls.up + [MpPart(s, at + n - s, num)], Stretched(ls.copy, s - at), ls'.down, ls.cancel)
            && AddsGaps(ls.down, u, s, at + n, ls'.down) && Apart(ls'.down, at + n)
  {
    WrittenGaps(u, at, n, cur, cur[0].start, ls.down, ls'.down);
    WrittenArea(u, at, n, cur, cur[0].start);
    NoneHere(u, at, n, cur);
  }

  lemma {:induction false} LatePlan(orig: seq<FilePart>, u: seq<Part>, list: seq<FilePart>, ui: nat, j: nat,
                                    plan: seq<Planned>, ls: Lists, at: int, n: int, m: int, useCopy: bool, s: int,
                                    ls': Lists) returns (plan': seq<Planned>)
    requires Standing(orig, u, list, ui, j, plan, ls, at, m, useCopy)
    requires MIN_MULTIPART_SIZE <= m && IsArea(at, n, |plan|, m) && FirstWritten(u, at, at + n, s)
    requires forall i :: j <= i < |orig| ==> |plan| + 1 < orig[i].partNum
    requires Absorbs(ls.copy, at, n, s, useCopy)
    requires ls' == Lists(ls.up + [MpPart(s, at + n - s, |plan| + 1)], Stretched(ls.copy, s - at), ls'.down, ls.cancel)
    requires AddsGaps(ls.down, u, s, at + n, ls'.down) && Apart(ls'.down, at + n) && !NoneIn(u, s, at + n)
    ensures Standing(orig, u, list, ui, j, plan', ls', at + n, m, useCopy)
  {
    plan' := Longer(plan, s - at) + [NewPart(Upload, s, at + n - s, |plan| + 1)];
    SettleAbsorbed(orig, u, list, ui, j, plan, ls, at, n, m, useCopy, s, ls');
    AbsorbsIs(ls, plan, u, at, n, m, useCopy, s);
    LastCopy(plan, m);
    LateGaps(plan, u, ls.cancel, at, n, s, m);
  }

  lemma LateGaps(plan: seq<Planned>, u: seq<Part>, cancel: seq<FilePart>, at: int, n: int, s: int, m: int)
    requires GapsRight(plan, u, cancel, m) && plan != [] && plan[|plan| - 1].kind == Copy && at == |plan| * m
    requires FirstWritten(u, at, at + n, s) && Joins(true, at, s, at + n, m)
    ensures GapsRight(Longer(plan, s - at) + [NewPart(Upload, s, at + n - s, |plan| + 1)], u, cancel, m)
  {
    OneFirst(u, at, at + n, s);
    GapsLonger(plan, s - at, u, cancel, m);
    GapsPush(Longer(plan, s - at), NewPart(Upload, s, at + n - s, |plan| + 1), u, cancel, cancel, m);
  }

  /** Whatever the area holds, the division stands behind it. */
  lemma {:induction false} AreaStands(orig: seq<FilePart>, u: seq<Part>, list: seq<FilePart>, ui: nat, j: nat,
                                      plan: seq<Planned>,
                   ls: Lists, fileSize: int, start: int, size: int, m: int, useCopy: bool, cur: seq<Part>, ok: bool,
                       found: bool, overlap: nat, next: nat, list': seq<FilePart>, ui': nat, ls': Lists)
    returns (j': nat, plan': seq<Planned>)
    requires Blocks(orig, m) && EndsBy(orig, fileSize) && Standing(orig, u, list, ui, j, plan, ls, start, m, useCopy)
    requires MIN_MULTIPART_SIZE <= m && AreaSize(start, size, fileSize, m) && AreaBytes(u, start, size, cur)
    requires Searched(list, ui, start, size, ok, found, overlap, next)
    requires ok ==> Entered(start, size, start / m + 1, cur, list, found, overlap, next, ls, useCopy, list', ui', ls')
    ensures ok && Standing(orig, u, list', ui', j', plan', ls', start + size, m, useCopy)
  {
    AreaStart(start, size, fileSize, |plan|, m);
    FoundBlock(orig, u, list, ui, j, plan, ls, size, m, ok, found, overlap, next);
    assert Entered(start, size, |plan| + 1, cur, list, found, overlap, next, ls, useCopy, list', ui', ls');
    if found {
      plan' := StandsFound(orig, u, list, ui, j, plan, ls, fileSize, start, size, m, useCopy, cur, list', ui', ls');
      j' := j + 1;
    } else {
      plan' := StandsNew(orig, u, list, ui, j, plan, ls, start, size, m, useCopy, cur, list', ui', ls');
      j' := j;
    }
  }

  /** An area without an uploaded block. */
  lemma {:induction false} StandsNew(orig: seq<FilePart>, u: seq<Part>, list: seq<FilePart>, ui: nat, j: nat,
                                     plan: seq<Planned>, ls: Lists, start: int, size: int, m: int, useCopy: bool,
                                     cur: seq<Part>, list': seq<FilePart>, ui': nat, ls': Lists)
    returns (plan': seq<Planned>)
    requires Standing(orig, u, list, ui, j, plan, ls, start, m, useCopy)
    requires MIN_MULTIPART_SIZE <= m && IsArea(start, size, |plan|, m) && AreaBytes(u, start, size, cur)
    requires forall i :: j <= i < |orig| ==> |plan| + 1 < orig[i].partNum
    requires Entered(start, size, |plan| + 1, cur, list, false, ui, ui, ls, useCopy, list', ui', ls')
    ensures Standing(orig, u, list', ui', j, plan', ls', start + size, m, useCopy)
  {
    if cur == [] {
      plan' := StandsClean(orig, u, list, ui, j, plan, ls, start, size, m, useCopy, list', ui', ls');
    } else if Absorbs(ls.copy, start, size, cur[0].start, useCopy) {
      plan' := StandsLate(orig, u, list, ui, j, plan, ls, start, size, m, useCopy, cur, list', ui', ls');
    } else {
      plan' := StandsWhole(orig, u, list, ui, j, plan, ls, start, size, m, useCopy, cur, list', ui', ls');
    }
  }

  lemma BlockFits(orig: seq<FilePart>, j: nat, fileSize: int, k: int, m: int)
    requires Blocks(orig, m) && EndsBy(orig, fileSize) && j < |orig| && orig[j].partNum == k + 1
    ensures k * m + m <= fileSize
  {
    assert orig[j] in orig;
  }

  /** The state of the division at byte start. */
  ghost predicate Dividing(untreated: seq<Part>, orig: seq<FilePart>, dup: seq<Part>, list: seq<FilePart>, ui: nat,
                           ls: Lists, wait: bool, plan: seq<Planned>, j: nat, start: int, m: int, fileSize: int,
                           useCopy: bool)
    requires Separate(untreated) && 0 < m
  {
    && 0 <= start <= fileSize && ui <= |list| && (start < fileSize ==> start % m == 0)
    && LaterBytes(untreated, start, dup) && wait == NeedsWait(ls.cancel)
    && (Blocks(orig, m) && EndsBy(orig, fileSize) ==>
          Standing(orig, untreated, list, ui, j, plan, ls, start, m, useCopy))
  }

  /** One turn of the division of the whole file. */
  method DivideNext(start: int, size: int, m: int, fileSize: int, untreated: seq<Part>, dup: seq<Part>,
                    list: seq<FilePart>, ui: nat, ls: Lists, wait: bool, useCopy: bool, ghost orig: seq<FilePart>,
                    ghost j: nat, ghost plan: seq<Planned>)
    returns (ok: bool, list': seq<FilePart>, ui': nat, ls': Lists, wait': bool, dup': seq<Part>, ghost j': nat,
             ghost plan': seq<Planned>)
    requires Separate(untreated) && MIN_MULTIPART_SIZE <= m && start < fileSize
    requires size == if start + m <= fileSize then m else fileSize - start
    requires Dividing(untreated, orig, dup, list, ui, ls, wait, plan, j, start, m, fileSize, useCopy)
    ensures wait' == NeedsWait(ls'.cancel) && (Blocks(orig, m) && EndsBy(orig, fileSize) ==> ok)
    ensures ok ==>
              Dividing(untreated, orig, dup', list', ui', ls', wait', plan', j', start + size, m, fileSize, useCopy)
  {
    NextStart(start, m);
    var cur;
    cur, dup' := TakeUntreated(untreated, dup, start, size);
    ghost var found, overlap, next;
    ok, list', ui', ls', wait', found, overlap, next := DivideArea(start, size, m, cur, list, ui, ls, wait, useCopy);
    j', plan' := j, plan;
    if Blocks(orig, m) && EndsBy(orig, fileSize) {
      j', plan' := AreaStands(orig, untreated, list, ui, j, plan, ls, fileSize, start, size, m, useCopy, cur,
                              ok, found, overlap, next, list', ui', ls');
    }
  }

  /** Divides the whole file: which uploaded blocks stay, what is sent, copied and fetched. */
  method ExtractUploadPartsFromAllArea(untreated: seq<Part>, list: seq<FilePart>, m: int, fileSize: int, useCopy: bool)
    returns (ok: bool, rest: seq<FilePart>, ls: Lists, wait: bool, ghost plan: seq<Planned>)
    requires Separate(untreated) && MIN_MULTIPART_SIZE <= m && 0 <= fileSize
    ensures ok ==> wait == NeedsWait(ls.cancel)
    ensures Blocks(list, m) && EndsBy(list, fileSize) ==>
              && ok && Divides(ls, plan, untreated, fileSize, m, useCopy) && |plan| == Ceil(fileSize, m)
              && rest == Keeps(plan) == UntouchedOf(list, untreated) && ls.cancel == TouchedOf(list, untreated)
              && (wait <==> ls.cancel != []) && GapsRight(plan, untreated, ls.cancel, m)
  {
    ghost var ui, j;
    ok, rest, ls, wait, plan, ui, j := DivideAll(untreated, list, m, fileSize, useCopy);
    if Blocks(list, m) && EndsBy(list, fileSize) {
      StandingEnd(list, untreated, rest, ui, j, plan, ls, fileSize, m, useCopy);
      WaitMeansCancel(list, untreated, m);
    }
  }

  method DivideAll(untreated: seq<Part>, list: seq<FilePart>, m: int, fileSize: int, useCopy: bool)
    returns (ok: bool, rest: seq<FilePart>, ls: Lists, wait: bool, ghost plan: seq<Planned>, ghost at: nat,
             ghost j: nat)
    requires Separate(untreated) && MIN_MULTIPART_SIZE <= m && 0 <= fileSize
    ensures wait == NeedsWait(ls.cancel)
    ensures Blocks(list, m) && EndsBy(list, fileSize) ==>
              ok && Standing(list, untreated, rest, at, j, plan, ls, fileSize, m, useCopy)
  {
    rest, ls, wait, plan := list, Lists([], [], [], []), false, [];
    var dup := untreated;
    var ui: nat, start := 0, 0;
    at, j := 0, 0;
    StandingStart(list, untreated, m, useCopy);
    while start < fileSize
      invariant Dividing(untreated, list, dup, rest, ui, ls, wait, plan, j, start, m, fileSize, useCopy)
    {
      var size := if start + m <= fileSize then m else fileSize - start;
      ok, rest, ui, ls, wait, dup, j, plan :=
        DivideNext(start, size, m, fileSize, untreated, dup, rest, ui, ls, wait, useCopy, list, j, plan);
      if !ok {
        return;
      }
      start := start + size;
    }
    ok, at := true, ui;
  }

  /** As no block is marked as uploaded, every cancelled one has to be waited for. */
  lemma WaitMeansCancel(list: seq<FilePart>, u: seq<Part>, m: int)
    requires Blocks(list, m)
    ensures NeedsWait(TouchedOf(list, u)) <==> TouchedOf(list, u) != []
  {
    TouchedSplit(list, u);
    if TouchedOf(list, u) != [] {
      assert TouchedOf(list, u)[0] in TouchedOf(list, u);
    }
  }

  lemma NextStart(start: int, m: int)
    requires 0 <= start && 0 < m && start % m == 0
    ensures (start + m) % m == 0
  {
    MulLe(start / m, start / m + 1, m);
    DivUnique(start + m, start / m + 1, 0, m);
  }

  lemma StandingStart(list: seq<FilePart>, u: seq<Part>, m: int, useCopy: bool)
    requires 0 < m
    ensures Blocks(list, m) ==> Standing(list, u, list, 0, 0, [], Lists([], [], [], []), 0, m, useCopy)
    ensures !NeedsWait([])
    ensures Separate(u) ==> LaterBytes(u, 0, u)
  {
    assert list[..0] == [] && list[0..] == list;
    if Blocks(list, m) {
      forall i | 0 <= i < |list| ensures 0 < list[i].partNum { assert list[i] in list; }
    }
  }

  lemma StandingEnd(orig: seq<FilePart>, u: seq<Part>, list: seq<FilePart>, ui: nat, j: nat, plan: seq<Planned>,
                    ls: Lists, fileSize: int, m: int, useCopy: bool)
    requires Blocks(orig, m) && EndsBy(orig, fileSize)
    requires Standing(orig, u, list, ui, j, plan, ls, fileSize, m, useCopy)
    ensures list == Keeps(plan) == UntouchedOf(orig, u) && ls.cancel == TouchedOf(orig, u)
  {
    if j < |orig| {
      BlockFits(orig, j, fileSize, orig[j].partNum - 1, m);
      MulLe(orig[j].partNum - 1, orig[j].partNum, m);
      CeilLe(fileSize, orig[j].partNum - 1, m);
      assert false;
    }
    assert |list[ui..]| == |orig[j..]| == 0;
    assert list[..ui] == list && orig[..j] == orig;
  }

  // ---- what a division means

  /** Part k of the plan has number k + 1, starts where part k - 1 ends, and respects the limits of
      the upload service: at least 5 MB unless it is the last, at most m bytes unless it is copied,
      and a copy at most 5 GB or m. */
  lemma {:induction false} PlanLimits(plan: seq<Planned>, m: int, k: nat)
    requires Tiling(plan, m) && MIN_MULTIPART_SIZE <= m && k < |plan|
    ensures var f := plan[k].file;
            && f.partNum == k + 1 && f.start == (if k == 0 then 0 else plan[k - 1].file.start + plan[k - 1].file.size)
            && 0 < f.size && (k < |plan| - 1 ==> MIN_MULTIPART_SIZE <= f.size)
            && (plan[k].kind == Keep ==> f.size == m) && (plan[k].kind == Upload ==> f.size <= m)
            && (plan[k].kind == Copy ==> f.size < 2 * m && (f.size <= m || f.size <= FIVE_GB))
    ensures InPlace(plan[k], k, m) && Tiling(plan[..k], m)
  {
    var n := |plan| - 1;
    if k < n {
      PlanLimits(plan[..n], m, k);
      assert plan[..n][..k] == plan[..k];
      if k == n - 1 {
        StartsAt(plan[n], n, m);
        InBlock(plan[k], k, m);
      }
    } else {
      InBlock(plan[k], k, m);
    }
  }

  lemma StartsAt(q: Planned, k: int, m: int)
    requires InPlace(q, k, m)
    ensures k * m <= q.file.start
  {
  }

  lemma InBlock(q: Planned, k: int, m: int)
    requires InPlace(q, k, m) && MIN_MULTIPART_SIZE <= m
    ensures var f := q.file;
            && (q.kind == Upload ==> f.size <= m) && (q.kind == Keep ==> f.size == m)
            && (q.kind == Copy ==> f.size < 2 * m && (f.size <= m || f.size <= FIVE_GB))
            && ((k + 1) * m <= f.start + f.size ==> MIN_MULTIPART_SIZE <= f.size)
  {
    MulLe(k, k + 1, m);
  }

  lemma {:induction false} PlannedBelow(plan: seq<Planned>, kind: Kind, m: int, b: int)
    requires Tiling(plan, m)
    ensures InMp(AreasOf(plan, kind), b) ==> 0 <= b < EndOf(plan)
    ensures InFiles(Keeps(plan), b) <==> InMp(AreasOf(plan, Keep), b)
    ensures 0 <= EndOf(plan)
  {
    if plan != [] {
      var front, q := plan[..|plan| - 1], plan[|plan| - 1];
      PlannedBelow(front, kind, m, b);
      InMpPush(AreasOf(front, kind), MpPart(q.file.start, q.file.size, q.file.partNum));
      InMpPush(AreasOf(front, Keep), MpPart(q.file.start, q.file.size, q.file.partNum));
      InFilesPush(Keeps(front), q.file);
    }
  }

  /** Every byte of the file belongs to exactly one part. */
  lemma {:induction false} OneKind(plan: seq<Planned>, m: int, b: int)
    requires Tiling(plan, m) && 0 <= b < EndOf(plan)
    ensures var up, copy, keep := InMp(AreasOf(plan, Upload), b), InMp(AreasOf(plan, Copy), b), InFiles(Keeps(plan), b);
            (up || copy || keep) && !(up && copy) && !(up && keep) && !(copy && keep)
  {
    var front, q := plan[..|plan| - 1], plan[|plan| - 1];
    var p := MpPart(q.file.start, q.file.size, q.file.partNum);
    InMpPush(AreasOf(front, Upload), p);
    InMpPush(AreasOf(front, Copy), p);
    InFilesPush(Keeps(front), q.file);
    PlannedBelow(front, Upload, m, b);
    PlannedBelow(front, Copy, m, b);
    PlannedBelow(front, Keep, m, b);
    if b < EndOf(front) {
      OneKind(front, m, b);
    }
  }

  lemma {:induction false} TouchedSplit(ps: seq<FilePart>, u: seq<Part>)
    ensures forall p :: p in TouchedOf(ps, u) <==> p in ps && Touched(p, u)
    ensures forall p :: p in UntouchedOf(ps, u) <==> p in ps && !Touched(p, u)
  {
    if ps != [] {
      TouchedSplit(ps[..|ps| - 1], u);
      assert ps == ps[..|ps| - 1] + [ps[|ps| - 1]];
    }
  }

  lemma {:induction false} UntouchedNumbered(ps: seq<FilePart>, u: seq<Part>)
    requires Numbered(ps)
    ensures Numbered(UntouchedOf(ps, u))
  {
    if ps != [] {
      var front, last := ps[..|ps| - 1], ps[|ps| - 1];
      UntouchedNumbered(front, u);
      TouchedSplit(front, u);
      var done := UntouchedOf(front, u);
      forall j | 0 <= j < |done| ensures done[j].partNum < last.partNum {
        assert done[j] in done;
        var i :| 0 <= i < |front| && ps[i] == done[j];
      }
    }
  }

  /** The division read byte by byte: what was written is sent; what is kept was uploaded and not
      written since; what is copied was neither written nor uploaded; what is fetched is sent without
      having been written or uploaded, and nothing else is. */
  lemma DivisionMeaning(ls: Lists, plan: seq<Planned>, u: seq<Part>, list: seq<FilePart>, fileSize: int, m: int,
                        useCopy: bool, b: int)
    requires Divides(ls, plan, u, fileSize, m, useCopy) && 0 <= b < fileSize
    requires Keeps(plan) == UntouchedOf(list, u) && ls.cancel == TouchedOf(list, u)
    ensures Holds(u, b) ==> InMp(ls.up, b)
    ensures InFiles(Keeps(plan), b) ==> InFiles(list, b) && !Holds(u, b) && !InMp(ls.up, b) && !InMp(ls.copy, b)
    ensures InMp(ls.copy, b) ==> useCopy && !Holds(u, b) && !InFiles(list, b) && !InMp(ls.up, b)
    ensures InMp(ls.down, b) ==>
              InMp(ls.up, b) && !Holds(u, b) && (forall p :: p in list && p.Covers(b) ==> !Touched(p, u))
    ensures InMp(ls.up, b) && !InMp(ls.down, b) ==> Holds(u, b) || InFiles(list, b)
    ensures InMp(ls.up, b) || InMp(ls.copy, b) || InFiles(Keeps(plan), b)
  {
    OneKind(plan, m, b);
    ListedSplit(list, u, b);
  }

  lemma ListedSplit(ps: seq<FilePart>, u: seq<Part>, b: int)
    ensures InFiles(ps, b) <==> InFiles(TouchedOf(ps, u), b) || InFiles(UntouchedOf(ps, u), b)
    ensures forall p :: p in ps && p.Covers(b) && Touched(p, u) ==> InFiles(TouchedOf(ps, u), b)
  {
    TouchedSplit(ps, u);
    if p :| p in ps && p.Covers(b) {
      assert p in TouchedOf(ps, u) || p in UntouchedOf(ps, u);
    }
  }
}
