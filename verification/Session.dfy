/** Whole runs on one file: whatever sequence of operations an application performs, and whenever the
    upload workers end in between, the file is the byte array those operations make of it. */
module Sessions {
  import opened Limits
  import opened Pages
  import opened PageLists
  import opened PartLimits
  import opened Untreated
  import opened StreamPlans
  import opened FdInfos
  import opened Contents
  import opened Flushes
  import opened Entities

  datatype Op = Write(start: nat, data: seq<byte>) | Read(start: nat,
                                                          size: nat) | Truncate(size: nat) | Flush(force: bool)

  /** What an operation makes of a plain byte array. */
  ghost function Applied(v: seq<byte>, op: Op): seq<byte> {
    match op
    case Write(start, data) => Written(v, start, data)
    case Truncate(size) => Fitted(v, size)
    case Read(_, _) => v
    case Flush(_) => v
  }

  ghost function AppliedAll(v: seq<byte>, ops: seq<Op>): seq<byte> {
    if ops == [] then v else Applied(AppliedAll(v, ops[..|ops| - 1]), ops[|ops| - 1])
  }

  /** What a read has to deliver, nothing for other operations. */
  ghost function Answer(v: seq<byte>, op: Op): seq<byte> {
    match op
    case Read(start, size) => Slice(v, start, size)
    case _ => []
  }

  /** The answers of the operations that were carried out. */
  ghost function Answers(v: seq<byte>, ops: seq<Op>, oks: seq<bool>): seq<seq<byte>>
    requires |oks| == |ops|
  {
    if ops == [] then []
    else
      var k := |ops| - 1;
      Answers(v, ops[..k], oks[..k]) + [if oks[k] then Answer(AppliedAll(v, ops[..k]), ops[k]) else []]
  }

  /** The object after a run: the file as the last successful flush found it, first if there was none. */
  ghost function ObjectAfter(v: seq<byte>, first: seq<byte>, ops: seq<Op>, oks: seq<bool>): seq<byte>
    requires |oks| == |ops|
  {
    if ops == [] then first
    else
      var k := |ops| - 1;
      if ops[k].Flush? && oks[k] then AppliedAll(v, ops) else ObjectAfter(v, first, ops[..k], oks[..k])
  }

  /** The same where a flush may report a failure although it replaced the object. */
  ghost predicate MayHold(v: seq<byte>, first: seq<byte>, ops: seq<Op>, oks: seq<bool>, stored: seq<byte>)
    requires |oks| == |ops|
  {
    if ops == [] then stored == first
    else
      var k := |ops| - 1;
      || (ops[k].Flush? && stored == AppliedAll(v, ops))
      || (!(ops[k].Flush? && oks[k]) && MayHold(v, first, ops[..k], oks[..k], stored))
  }

  /** Only reads and flushes fail. */
  ghost predicate OthersWork(ops: seq<Op>, oks: seq<bool>) {
    |oks| <= |ops| && forall i :: 0 <= i < |oks| && !oks[i] ==> ops[i].Read? || ops[i].Flush?
  }

  /** Every successful flush was of a file that needs no more parts of m bytes than the service takes, or
      had nothing to do. */
  ghost predicate FlushesFit(v: seq<byte>, first: seq<byte>, ops: seq<Op>, oks: seq<bool>, m: int)
    requires |oks| == |ops|
  {
    ops == [] ||
    var k := |ops| - 1;
    var now := AppliedAll(v, ops[..k]);
    && FlushesFit(v, first, ops[..k], oks[..k], m)
    && (ops[k].Flush? && oks[k] ==> |now| <= MAX_MULTIPART_CNT * m || MayHold(v, first, ops[..k], oks[..k], now))
  }

  /** The operations were performed with these outcomes and answers; this is the file now, and stored
      may be the object. */
  ghost predicate Ran(v: seq<byte>, first: seq<byte>, ops: seq<Op>, oks: seq<bool>, answers: seq<seq<byte>>,
                      now: seq<byte>, stored: seq<byte>, m: int) {
    && |oks| == |ops| && now == AppliedAll(v, ops) && OthersWork(ops, oks) && answers == Answers(v, ops, oks)
    && MayHold(v, first, ops, oks, stored) && FlushesFit(v, first, ops, oks, m)
  }

  /** A run longer by operation i. */
  lemma RanNext(v: seq<byte>, first: seq<byte>, ops: seq<Op>, i: nat, oks: seq<bool>, answers: seq<seq<byte>>,
                was: seq<byte>, held: seq<byte>, ok: bool, answer: seq<byte>, now: seq<byte>, stored: seq<byte>, m: int)
    requires i < |ops| && Ran(v, first, ops[..i], oks, answers, was, held, m)
    requires now == Applied(was, ops[i]) && (!ok ==> ops[i].Read? || ops[i].Flush?)
    requires answer == if ok then Answer(was, ops[i]) else []
    requires stored == held || (ops[i].Flush? && stored == now)
    requires ok && ops[i].Flush? ==> stored == now && (held == was || |was| <= MAX_MULTIPART_CNT * m)
    ensures Ran(v, first, ops[..i + 1], oks + [ok], answers + [answer], now, stored, m)
  {
    assert ops[..i + 1][..i] == ops[..i] && (oks + [ok])[..i] == oks;
  }

  lemma ObjectNext(v: seq<byte>, first: seq<byte>, ops: seq<Op>, i: nat, oks: seq<bool>, ok: bool)
    requires i < |ops| && |oks| == i
    ensures ObjectAfter(v, first, ops[..i + 1], oks + [ok]) ==
              if ops[i].Flush? && ok then AppliedAll(v, ops[..i]) else ObjectAfter(v, first, ops[..i], oks)
    ensures AllDone(oks) && ok ==> AllDone(oks + [ok])
  {
    assert ops[..i + 1][..i] == ops[..i] && (oks + [ok])[..i] == oks;
  }

  /** In every recorded run an answered read has the bytes of the file as the operations before it left it,
      as many as it asked for or the file has. */
  lemma {:induction false} ReadBytes(v: seq<byte>, first: seq<byte>, ops: seq<Op>, oks: seq<bool>,
                                     answers: seq<seq<byte>>, now: seq<byte>, stored: seq<byte>, m: int, i: nat)
    requires Ran(v, first, ops, oks, answers, now, stored, m) && i < |ops| && oks[i] && ops[i].Read?
    ensures |answers| == |ops|
    ensures var was, start, size := AppliedAll(v, ops[..i]), ops[i].start, ops[i].size;
            && |answers[i]| == (if |was| <= start then 0 else if start + size <= |was| then size else |was| - start)
            && forall k :: 0 <= k < |answers[i]| ==> answers[i][k] == was[start + k]
  {
    AnswerAt(v, ops, oks, i);
  }

  lemma {:induction false} AnswerAt(v: seq<byte>, ops: seq<Op>, oks: seq<bool>, i: nat)
    requires |oks| == |ops| && i < |ops|
    ensures |Answers(v, ops, oks)| == |ops|
    ensures Answers(v, ops, oks)[i] == if oks[i] then Answer(AppliedAll(v, ops[..i]), ops[i]) else []
  {
    var k := |ops| - 1;
    AnswersSize(v, ops, oks);
    AnswersSize(v, ops[..k], oks[..k]);
    if i < k {
      AnswerAt(v, ops[..k], oks[..k], i);
      assert ops[..k][..i] == ops[..i] && ops[..k][i] == ops[i] && oks[..k][i] == oks[i];
      assert Answers(v, ops, oks)[i] == Answers(v, ops[..k], oks[..k])[i];
    }
  }

  lemma {:induction false} AnswersSize(v: seq<byte>, ops: seq<Op>, oks: seq<bool>)
    requires |oks| == |ops|
    ensures |Answers(v, ops, oks)| == |ops|
  {
    if ops != [] {
      AnswersSize(v, ops[..|ops| - 1], oks[..|ops| - 1]);
    }
  }

  /** Behind a successful flush the object is the file. */
  lemma BehindFlush(v: seq<byte>, first: seq<byte>, ops: seq<Op>, oks: seq<bool>, answers: seq<seq<byte>>,
                    now: seq<byte>, stored: seq<byte>, m: int)
    requires Ran(v, first, ops, oks, answers, now, stored, m) && ops != [] && ops[|ops| - 1].Flush? && oks[|ops| - 1]
    ensures stored == now
  {
  }

  /** Any number of upload workers end. */
  method WorkersEnd(e: FdEntity, m: int, reliable: bool)
    requires e.Valid() && e.Streaming(m)
    modifies e.info
    ensures e.Valid() && e.Streaming(m) && e.Content() == old(e.Content())
    ensures reliable && old(e.OnTrack()) ==> e.OnTrack()
  {
    var more: bool := *;
    while more && e.info.pending != []
      invariant e.Valid() && e.Streaming(m) && e.Content() == old(e.Content())
      invariant reliable && old(e.OnTrack()) ==> e.OnTrack()
      decreases |e.info.pending|
    {
      var k, o := e.info.NextToEnd(e.local, e.remote, e.untreated.list, reliable);
      e.WorkerEnds(k, o, m);
      more := *;
    }
  }

  // ---- stream upload

  /** Whether behind this operation an upload in progress may be out of order: a truncation can cut
      uploaded or untreated bytes off, a flush can fail half-way, and that of a file of one block
      leaves the block listed, written since or not. */
  ghost predicate Unsettles(v: seq<byte>, op: Op, ok: bool, m: int) {
    match op
    case Truncate(size) => size < |v|
    case Flush(_) => !ok || |v| == m
    case _ => false
  }

  /** A flush had nothing to do, or the file needs no more parts than the service takes. */
  ghost predicate Fits(v: seq<byte>, stored: seq<byte>, m: int) {
    stored == v || |v| <= MAX_MULTIPART_CNT * m
  }

  /** One operation; ok tells whether it was carried out, going whether the upload in progress, if
      any, is still in order. */
  method StepStream(e: FdEntity, op: Op, m: int, useCopy: bool, failure: int, reliable: bool)
    returns (ok: bool, going: bool, answer: seq<byte>)
    requires e.Valid() && MIN_MULTIPART_SIZE <= m && e.Streaming(m)
    modifies e, e.pagelist, e.untreated, e.info
    ensures e.Valid() && (going ==> e.Streaming(m))
    ensures !going ==> Unsettles(old(e.Content()), op, ok, m)
    ensures op.Truncate? ==> (going <==> InFile(old(e.untreated.list), old(e.info.uploadList), op.size))
    ensures !ok ==> op.Read? || op.Flush?
    ensures e.Content() == Applied(old(e.Content()), op)
    ensures answer == if ok then Answer(old(e.Content()), op) else []
    ensures e.remote == old(e.remote) || (op.Flush? && e.remote == e.Content())
    ensures ok && op.Flush? ==> e.remote == e.Content() && Fits(old(e.Content()), old(e.remote), m)
    ensures reliable && failure == 0 && old(e.OnTrack()) && |e.Content()| <= MAX_MULTIPART_CNT * m ==>
              ok && (going ==> e.OnTrack())
  {
    ok, going, answer := true, true, [];
    match op {
      case Write(start, data) =>
        assert data[..|data|] == data;
        var _ := e.Write(start, data, |data|, m, failure);
      case Read(start, size) =>
        ok, answer := ReadStream(e, start, size, m, reliable);
      case Truncate(size) =>
        going := TruncateStream(e, size, m);
      case Flush(force) =>
        ok, going := FlushStream(e, force, m, useCopy, failure, reliable);
    }
  }

  /** Some workers end, then the operation. */
  method NextStream(e: FdEntity, op: Op, m: int, useCopy: bool, failure: int, reliable: bool)
    returns (ok: bool, going: bool, answer: seq<byte>)
    requires e.Valid() && MIN_MULTIPART_SIZE <= m && e.Streaming(m)
    modifies e, e.pagelist, e.untreated, e.info
    ensures e.Valid() && (going ==> e.Streaming(m))
    ensures !going ==> Unsettles(old(e.Content()), op, ok, m)
    ensures !ok ==> op.Read? || op.Flush?
    ensures e.Content() == Applied(old(e.Content()), op)
    ensures answer == if ok then Answer(old(e.Content()), op) else []
    ensures e.remote == old(e.remote) || (op.Flush? && e.remote == e.Content())
    ensures ok && op.Flush? ==> e.remote == e.Content() && Fits(old(e.Content()), old(e.remote), m)
    ensures reliable && failure == 0 && old(e.OnTrack()) && |e.Content()| <= MAX_MULTIPART_CNT * m ==>
              ok && (going ==> e.OnTrack())
  {
    WorkersEnd(e, m, reliable);
    ok, going, answer := StepStream(e, op, m, useCopy, failure, reliable);
  }

  method ReadStream(e: FdEntity, start: nat, size: nat, m: int, reliable: bool) returns (ok: bool, answer: seq<byte>)
    requires e.Valid() && 0 < m && e.Streaming(m)
    modifies e`local, e.pagelist
    ensures e.Valid() && e.Streaming(m) && e.Content() == old(e.Content()) && |e.local| == old(|e.local|)
    ensures answer == if ok then Slice(e.Content(), start, size) else []
    ensures reliable ==> ok
  {
    var result;
    result, answer := e.Read(start, size, size, true, reliable);
    ok := result == 0;
    if !ok {
      answer := [];
    }
  }

  method TruncateStream(e: FdEntity, size: nat, m: int) returns (going: bool)
    requires e.Valid() && 0 < m && e.Streaming(m)
    modifies e, e.pagelist, e.untreated
    ensures e.Valid() && (going <==> e.Streaming(m)) && e.Content() == Fitted(old(e.Content()), size)
    ensures (going <==> InFile(old(e.untreated.list), e.info.uploadList, size)) && (!going ==> size < |old(e.local)|)
    ensures e.remote == old(e.remote) && (going && old(e.OnTrack()) ==> e.OnTrack())
  {
    going := && (forall p | p in e.info.uploadList :: p.start + p.size <= size)
             && (forall p | p in e.untreated.list :: p.start + p.size <= size);
    PartsInFile(e.pagelist.Statuses(), e.sizeOrgmeta, e.untreated.list, e.info.uploadList, size);
    e.Open(size, -1, m);
  }

  lemma PartsInFile(st: seq<Status>, org: int, u: seq<Part>, list: seq<FilePart>, size: nat)
    requires Tracked(st, org, u, list) && Separate(u)
    ensures InFile(u, list, size) <==> EndsBy(list, size) && forall p :: p in u ==> p.start + p.size <= size
    ensures |st| <= size ==> InFile(u, list, size)
  {
    if InFile(u, list, size) {
      forall p | p in u ensures p.start + p.size <= size {
        var k :| 0 <= k < |u| && u[k] == p;
        HoldsAt(u, k, p.start + p.size - 1);
      }
    }
    if forall p :: p in u ==> p.start + p.size <= size {
      forall b | Holds(u, b) ensures b < size {
        var k :| 0 <= k < |u| && u[k].Covers(b);
        assert u[k] in u;
      }
    }
  }

  method FlushStream(e: FdEntity, force: bool, m: int, useCopy: bool, failure: int, reliable: bool)
    returns (ok: bool, going: bool)
    requires e.Valid() && MIN_MULTIPART_SIZE <= m && e.Streaming(m)
    modifies e, e.pagelist, e.untreated, e.info
    ensures e.Valid() && (going ==> e.Streaming(m)) && e.Content() == old(e.Content())
    ensures !going && ok ==>
              |old(e.Content())| == m && !old(Intact(e.pagelist.Statuses(), e.untreated.list, e.info.uploadList))
    ensures !going && !ok ==> e.untreated.list != old(e.untreated.list) || e.info.uploadList != old(e.info.uploadList)
    ensures ok ==> Fits(old(e.Content()), old(e.remote), m)
    ensures e.remote == e.Content() || (!ok && e.remote == old(e.remote))
    ensures reliable && failure == 0 && old(e.OnTrack()) && |e.local| <= MAX_MULTIPART_CNT * m ==> ok && e.OnTrack()
  {
    var dirtyHeaders: bool := *;
    var clean := e.NothingToFlush(force, dirtyHeaders);
    if clean {
      return true, true;
    }
    var u, list := e.untreated.list, e.info.uploadList;
    BlockFits(list, m, |e.local|);
    var intact := BlocksIntact(e, m);
    var result := e.RowFlushStreamMultipart(m, useCopy, true, failure, reliable);
    ok := result == 0;
    going := if ok then m < |e.local| || intact else e.untreated.list == u && e.info.uploadList == list;
  }

  /** Looks whether no listed block was written since it was uploaded and all are loaded. */
  method BlocksIntact(e: FdEntity, m: int) returns (intact: bool)
    requires e.Valid() && 0 < m && e.Streaming(m)
    ensures intact <==> Intact(e.pagelist.Statuses(), e.untreated.list, e.info.uploadList)
    ensures e.info.uploadList == [] ==> intact
  {
    var u, list := e.untreated.list, e.info.uploadList;
    ghost var st := e.pagelist.Statuses();
    BlocksPlace(list, m);
    for k := 0 to |list|
      invariant forall j :: 0 <= j < k ==> BlockIntact(st, u, list[j])
    {
      var p := list[k];
      assert p in list;
      TouchedIs(p, u);
      var touched := exists q | q in u :: q.start < p.start + p.size && p.start < q.start + q.size;
      var loaded := e.pagelist.IsPageLoaded(p.start, p.size);
      LoadedBlock(st, p);
      if touched || !loaded {
        IntactIs(st, u, list);
        return false;
      }
    }
    IntactIs(st, u, list);
    return true;
  }

  ghost predicate BlockIntact(st: seq<Status>, u: seq<Part>, p: FilePart) {
    !Touched(p, u) && forall i :: 0 <= i < |st| && p.Covers(i) ==> st[i].loaded
  }

  lemma IntactIs(st: seq<Status>, u: seq<Part>, list: seq<FilePart>)
    ensures Intact(st, u, list) <==> forall j :: 0 <= j < |list| ==> BlockIntact(st, u, list[j])
  {
    var touched := TouchedOf(list, u);
    TouchedSplit(list, u);
    assert touched != [] ==> touched[0] in touched;
    if Intact(st, u, list) {
      forall j | 0 <= j < |list| ensures BlockIntact(st, u, list[j]) {
        assert list[j] in list && list[j] !in touched;
        forall i | 0 <= i < |st| && list[j].Covers(i) ensures st[i].loaded { assert InFiles(list, i); }
      }
    }
    if forall j :: 0 <= j < |list| ==> BlockIntact(st, u, list[j]) {
      forall p | p in list ensures BlockIntact(st, u, p) {
        var j :| 0 <= j < |list| && list[j] == p;
      }
    }
  }

  lemma TouchedIs(p: FilePart, u: seq<Part>)
    requires Separate(u) && 0 < p.size
    ensures Touched(p, u) <==> exists q :: q in u && q.start < p.start + p.size && p.start < q.start + q.size
  {
    if Touched(p, u) {
      var b :| p.Covers(b) && Holds(u, b);
      var k :| 0 <= k < |u| && u[k].Covers(b);
      assert u[k] in u;
    }
    if q :| q in u && q.start < p.start + p.size && p.start < q.start + q.size {
      var k :| 0 <= k < |u| && u[k] == q;
      var b := if q.start < p.start then p.start else q.start;
      assert u[k].Covers(b) && p.Covers(b);
    }
  }

  lemma LoadedBlock(st: seq<Status>, p: FilePart)
    requires 0 <= p.start && 0 < p.size && p.start + p.size <= |st|
    ensures AllLoadedIn(st, p.start, p.size) <==> forall i :: 0 <= i < |st| && p.Covers(i) ==> st[i].loaded
  {
    assert forall i :: 0 <= i < |st| ==> (InRange(i, p.start, p.size, |st|) <==> p.Covers(i));
  }

  lemma BlockFits(list: seq<FilePart>, m: int, n: int)
    requires Blocks(list, m) && 0 < m && EndsBy(list, n)
    ensures list != [] ==> m <= n
  {
    if list != [] {
      assert list[0] in list;
      MulLe(0, list[0].partNum - 1, m);
    }
  }

  /** The last of the operations performed unsettled the upload. */
  ghost predicate Stopped(v: seq<byte>, ops: seq<Op>, oks: seq<bool>, m: int) {
    && 0 < |ops| == |oks|
    && Unsettles(AppliedAll(v, ops[..|ops| - 1]), ops[|ops| - 1], oks[|ops| - 1], m)
  }

  ghost predicate AllDone(oks: seq<bool>) {
    forall i :: 0 <= i < |oks| ==> oks[i]
  }

  /** Nothing failed, and the object is the file as the last flush found it. */
  ghost predicate Fine(v: seq<byte>, first: seq<byte>, ops: seq<Op>, oks: seq<bool>, stored: seq<byte>) {
    |oks| == |ops| && AllDone(oks) && stored == ObjectAfter(v, first, ops, oks)
  }

  lemma FineNext(v: seq<byte>, first: seq<byte>, ops: seq<Op>, i: nat, oks: seq<bool>, ok: bool, now: seq<byte>,
                 held: seq<byte>, stored: seq<byte>, m: int)
    requires i < |ops| && |oks| == i && now == Applied(AppliedAll(v, ops[..i]), ops[i])
    requires stored == held || (ops[i].Flush? && stored == now)
    requires ok && ops[i].Flush? ==> stored == now
    ensures StaysSmall(v, ops[..i + 1], m) ==> StaysSmall(v, ops[..i], m) && |now| <= MAX_MULTIPART_CNT * m
    ensures Fine(v, first, ops[..i], oks, held) && ok ==> Fine(v, first, ops[..i + 1], oks + [ok], stored)
  {
    SmallNext(v, ops, i, m);
    ObjectNext(v, first, ops, i, oks, ok);
  }

  /** At no time the file needs more parts of m bytes than the service takes. */
  ghost predicate StaysSmall(v: seq<byte>, ops: seq<Op>, m: int) {
    |AppliedAll(v, ops)| <= MAX_MULTIPART_CNT * m && (ops == [] || StaysSmall(v, ops[..|ops| - 1], m))
  }

  lemma SmallNext(v: seq<byte>, ops: seq<Op>, i: nat, m: int)
    requires i < |ops|
    ensures StaysSmall(v, ops[..i + 1], m) <==>
              StaysSmall(v, ops[..i], m) && |Applied(AppliedAll(v, ops[..i]), ops[i])| <= MAX_MULTIPART_CNT * m
  {
    assert ops[..i + 1][..i] == ops[..i];
  }

  lemma StoppedNext(v: seq<byte>, ops: seq<Op>, i: nat, oks: seq<bool>, ok: bool, m: int)
    requires i < |ops| && |oks| == i && Unsettles(AppliedAll(v, ops[..i]), ops[i], ok, m)
    ensures Stopped(v, ops[..i + 1], oks + [ok], m)
  {
    assert ops[..i + 1][..i] == ops[..i];
  }

  /** One turn of the run below. */
  method TurnStream(e: FdEntity, ops: seq<Op>, i: nat, m: int, useCopy: bool, failure: int, reliable: bool,
                    ghost v: seq<byte>, ghost first: seq<byte>, ghost oks: seq<bool>, ghost answers: seq<seq<byte>>)
    returns (ok: bool, going: bool, answer: seq<byte>)
    requires e.Valid() && MIN_MULTIPART_SIZE <= m && e.Streaming(m) && i < |ops|
    requires Ran(v, first, ops[..i], oks, answers, e.Content(), e.remote, m)
    modifies e, e.pagelist, e.untreated, e.info
    ensures e.Valid() && (going ==> e.Streaming(m))
    ensures Ran(v, first, ops[..i + 1], oks + [ok], answers + [answer], e.Content(), e.remote, m)
    ensures !going ==> Stopped(v, ops[..i + 1], oks + [ok], m)
    ensures StaysSmall(v, ops[..i + 1], m) ==> StaysSmall(v, ops[..i], m)
    ensures reliable && failure == 0 && old(e.OnTrack()) && StaysSmall(v, ops[..i + 1], m) ==>
              && (Fine(v, first, ops[..i], oks, old(e.remote)) ==> Fine(v, first, ops[..i + 1], oks + [ok], e.remote))
              && (going ==> e.OnTrack())
  {
    ghost var was, held := e.Content(), e.remote;
    ok, going, answer := NextStream(e, ops[i], m, useCopy, failure, reliable);
    RanNext(v, first, ops, i, oks, answers, was, held, ok, answer, e.Content(), e.remote, m);
    FineNext(v, first, ops, i, oks, ok, e.Content(), held, e.remote, m);
    if !going { StoppedNext(v, ops, i, oks, ok, m); }
  }

  /** A run with stream upload and room on the disk, upload workers ending at any time. It performs
      operations one after the other and stops early only behind one that may unsettle an upload in
      progress. Writes and truncations do not fail; a flush or a read may, unless the service is
      reliable and the file never needs more parts than it takes. */
  method RunStream(e: FdEntity, ops: seq<Op>, m: int, useCopy: bool, failure: int, reliable: bool)
    returns (done: nat, oks: seq<bool>, answers: seq<seq<byte>>)
    requires e.Valid() && MIN_MULTIPART_SIZE <= m && e.Streaming(m)
    modifies e, e.pagelist, e.untreated, e.info
    ensures done <= |ops| && e.Valid()
    ensures Ran(old(e.Content()), old(e.remote), ops[..done], oks, answers, e.Content(), e.remote, m)
    ensures done < |ops| ==> Stopped(old(e.Content()), ops[..done], oks, m)
    ensures reliable && failure == 0 && old(e.OnTrack()) && StaysSmall(old(e.Content()), ops[..done], m) ==>
              Fine(old(e.Content()), old(e.remote), ops[..done], oks, e.remote)
  {
    var going := true;
    done, oks, answers := 0, [], [];
    ghost var v, first, track := e.Content(), e.remote, reliable && failure == 0 && e.OnTrack();
    while done < |ops| && going
      invariant done <= |ops| && e.Valid() && (going ==> e.Streaming(m))
      invariant Ran(v, first, ops[..done], oks, answers, e.Content(), e.remote, m)
      invariant going || Stopped(v, ops[..done], oks, m)
      invariant track && StaysSmall(v, ops[..done], m) ==> Fine(v, first, ops[..done], oks, e.remote)
      invariant track && StaysSmall(v, ops[..done], m) && going ==> e.OnTrack()
      decreases |ops| - done
    {
      var ok, answer;
      ok, going, answer := TurnStream(e, ops, done, m, useCopy, failure, reliable, v, first, oks, answers);
      oks, answers, done := oks + [ok], answers + [answer], done + 1;
    }
  }

  /** A new file, written and uploaded by parts. */
  method Created(data: seq<byte>, m: int, useCopy: bool) returns (e: FdEntity)
    requires MIN_MULTIPART_SIZE <= m < |data| <= MAX_MULTIPART_CNT * m
    ensures fresh(e) && fresh(e.pagelist) && e.Valid() && e.Content() == e.remote == data
    ensures NoneModified(e.pagelist.Statuses()) && e.sizeOrgmeta == 0
  {
    e := new FdEntity([]);
    assert data[..|data|] == data;
    var _ := e.Write(0, data, |data|, m, 0);
    var _ := e.RowFlushStreamMultipart(m, useCopy, true, 0, true);
  }

  /** Such a file punched as s3fs_write does behind a flush: the object has the data and the opened file
      has lost them, since the size of the object is noted only when a file is opened or sent whole. */
  method PunchBehindFlush(data: seq<byte>, m: int, useCopy: bool) returns (e: FdEntity)
    requires MIN_MULTIPART_SIZE <= m < |data| <= MAX_MULTIPART_CNT * m && data[0] != 0
    ensures e.pagelist.Valid() && |e.local| == e.pagelist.Size() && e.remote == data
    ensures e.Content() != data
  {
    e := Created(data, m, useCopy);
    CleanStart(e.pagelist.pages);
    var _, _ := e.PunchHole(true);
  }

  lemma CleanStart(ps: seq<Page>)
    requires WellFormed(ps) && 0 < SizeOf(ps) && NoneModified(Flat(ps))
    ensures BetweenClean(ps, 0)
  {
    assert !Flat(ps)[0].modified;
    assert CleanByte(ps, 0);
  }

  // ---- mixed upload

  method StepMix(e: FdEntity, op: Op, m: int, copySize: int, room: bool, reliable: bool)
    returns (ok: bool, answer: seq<byte>)
    requires e.Valid() && e.IsAnchored() && !e.info.uploading && MIN_MULTIPART_SIZE <= m
             && MIN_MULTIPART_SIZE <= copySize
    modifies e, e.pagelist, e.untreated
    ensures e.Valid() && e.IsAnchored()
    ensures !ok ==> op.Read? || op.Flush?
    ensures e.Content() == Applied(old(e.Content()), op)
    ensures answer == if ok then Answer(old(e.Content()), op) else []
    ensures e.remote == if op.Flush? && ok then e.Content() else old(e.remote)
    ensures op.Flush? && ok ==> Fits(old(e.Content()), old(e.remote), m)
    ensures reliable && room && !ok ==> op.Flush? && !old(MixFits(e.pagelist.pages, m, copySize))
    ensures reliable && room && !ok ==> IsLarge(old(e.Content()), op)
  {
    ok, answer := true, [];
    match op {
      case Write(start, data) =>
        assert data[..|data|] == data;
        var _, _ := e.WriteMix(start, data, |data|, m, true);
      case Read(start, size) =>
        var result;
        AnchoredDrops(e);
        result, answer := e.Read(start, size, size, room, reliable);
        ok := result == 0;
        if !ok {
          answer := [];
        }
      case Truncate(size) =>
        e.Open(size, -1, m);
      case Flush(force) =>
        ok := FlushMix(e, force, m, copySize, reliable);
    }
  }

  lemma AnchoredDrops(e: FdEntity)
    requires e.Valid() && e.IsAnchored()
    ensures e.Droppable()
  {
    var st := e.pagelist.Statuses();
    if NoneModified(st) && st != [] {
      assert !st[|st| - 1].modified;
    }
  }

  /** A flush, and the punching that may come behind it. */
  method FlushMix(e: FdEntity, force: bool, m: int, copySize: int, reliable: bool) returns (ok: bool)
    requires e.Valid() && e.IsAnchored() && !e.info.uploading && MIN_MULTIPART_SIZE <= m
             && MIN_MULTIPART_SIZE <= copySize
    modifies e, e.pagelist, e.untreated
    ensures e.Valid() && e.IsAnchored() && e.Content() == old(e.Content())
    ensures e.remote == if ok then e.Content() else old(e.remote)
    ensures ok ==> Fits(old(e.Content()), old(e.remote), m)
    ensures reliable && (old(MixFits(e.pagelist.pages, m, copySize)) || !IsLarge(old(e.Content()), Flush(force))) ==> ok
  {
    var dirtyHeaders: bool := *;
    ok := e.NothingToFlush(force, dirtyHeaders);
    if !ok {
      var _, result := e.RowFlushMixMultipart(m, copySize, true, reliable);
      ok := result == 0;
    }
    var punch: bool := *;
    if ok && punch {
      var accepted: bool := *;
      var _, _ := e.PunchHole(accepted);
    }
  }

  /** Only the flush of a file from 10,000 times 5 MB on can need more requests than the service takes. */
  ghost predicate IsLarge(v: seq<byte>, op: Op) {
    op.Flush? && MAX_MULTIPART_CNT * MIN_MULTIPART_SIZE <= |v|
  }

  /** A run with mixed upload, where no operation leaves anything out of order, a read may drop the cache
      of an unmodified file for lack of room, and the cache file may be punched behind a flush: all
      operations are performed, what fails changes nothing, and the object is the file as the last
      successful flush found it. With room and a reliable service nothing fails but the flush of a large
      file, see RowFlushMixMultipart. */
  method RunMix(e: FdEntity, ops: seq<Op>, m: int, copySize: int, room: bool, reliable: bool)
    returns (oks: seq<bool>, answers: seq<seq<byte>>)
    requires e.Valid() && e.IsAnchored() && !e.info.uploading && MIN_MULTIPART_SIZE <= m
             && MIN_MULTIPART_SIZE <= copySize
    modifies e, e.pagelist, e.untreated
    ensures e.Valid() && e.IsAnchored()
    ensures Ran(old(e.Content()), old(e.remote), ops, oks, answers, e.Content(), e.remote, m)
    ensures e.remote == ObjectAfter(old(e.Content()), old(e.remote), ops, oks)
    ensures reliable && room ==> OnlyLargeFail(old(e.Content()), ops, oks)
  {
    oks, answers := [], [];
    ghost var v, first := e.Content(), e.remote;
    for i := 0 to |ops|
      invariant e.Valid() && e.IsAnchored() && !e.info.uploading
      invariant Ran(v, first, ops[..i], oks, answers, e.Content(), e.remote, m)
      invariant e.remote == ObjectAfter(v, first, ops[..i], oks)
      invariant reliable && room ==> OnlyLargeFail(v, ops[..i], oks)
    {
      ghost var was, held := e.Content(), e.remote;
      var ok, answer := StepMix(e, ops[i], m, copySize, room, reliable);
      RanNext(v, first, ops, i, oks, answers, was, held, ok, answer, e.Content(), e.remote, m);
      ObjectNext(v, first, ops, i, oks, ok);
      if reliable && room { LargeNext(v, ops, i, oks, ok); }
      oks, answers := oks + [ok], answers + [answer];
    }
    assert ops[..|ops|] == ops;
  }

  ghost predicate OnlyLargeFail(v: seq<byte>, ops: seq<Op>, oks: seq<bool>) {
    |oks| == |ops| &&
    (ops == [] ||
     var k := |ops| - 1;
     OnlyLargeFail(v, ops[..k], oks[..k]) && (oks[k] || IsLarge(AppliedAll(v, ops[..k]), ops[k])))
  }

  lemma LargeNext(v: seq<byte>, ops: seq<Op>, i: nat, oks: seq<bool>, ok: bool)
    requires i < |ops| && OnlyLargeFail(v, ops[..i], oks) && (ok || IsLarge(AppliedAll(v, ops[..i]), ops[i]))
    ensures OnlyLargeFail(v, ops[..i + 1], oks + [ok])
  {
    assert ops[..i + 1][..i] == ops[..i] && (oks + [ok])[..i] == oks;
  }
}
