/** Inputs on which the bookkeeping of a stream upload loses bytes. */
module Witnesses {
  import opened Limits
  import opened Pages
  import opened PageLists
  import opened Untreated
  import opened StreamPlans
  import opened FdInfos
  import opened Contents
  import opened Flushes
  import opened Entities

  // ---- a retry behind a failed flush

  ghost function AllWrittenTo(n: nat): (st: seq<Status>)
    ensures |st| == n && forall i :: 0 <= i < n ==> st[i] == WRITTEN
  {
    seq(n, i => WRITTEN)
  }

  /** A file as long as its object, written from end to end, behind a flush that failed after its
      launch: nothing is untreated and nothing is listed. */
  lemma RetryState(local: seq<byte>, remote: seq<byte>, org: int)
    requires |local| == |remote| && local != remote
    ensures var st := AllWrittenTo(|local|);
            && Sound(st, local, remote, org) && View(st, local, remote, org) == local && !Accounted(st, [], [])
  {
    var st := AllWrittenTo(|local|);
    assert View(st, local, remote, org) == local;
    assert local != [];
    assert st[0].modified && !Holds([], 0) && !InFiles([], 0);
  }

  /** The next flush, if it may copy, copies everything; a reliable service takes every request, and the
      object it builds is the old one. */
  lemma RetryLoses(local: seq<byte>, remote: seq<byte>, org: int, m: int, ls: Lists, plan: seq<Planned>,
                   sent: map<int, seq<byte>>)
    requires |local| == |remote| && local != remote && MIN_MULTIPART_SIZE <= m && |plan| <= MAX_MULTIPART_CNT
    requires Divides(ls, plan, [], |local|, m, true) && Keeps(plan) == [] && ls.cancel == []
    ensures ls.up == [] && AreasTaken(ls.up, ls.copy, |local|, |remote|)
    ensures RightFor(PlanFiles(plan), [], sent, local, remote, []) && AllSent(PlanFiles(plan), sent) ==>
              var v := View(AllWrittenTo(|local|), local, remote, org);
              Assembled(PlanFiles(plan), sent) == remote != v
  {
    NothingWritten(ls.up);
    RetryState(local, remote, org);
    AreaNums(plan, Copy, m);
    forall p | p in ls.copy ensures Takes(FileOf(p, true), |local|, |remote|) {
      assert StandsFor(p, plan, Copy);
      InMpMember(ls.copy, p, p.start + p.size - 1);
      PlannedBelow(plan, Copy, m, p.start + p.size - 1);
    }
    if RightFor(PlanFiles(plan), [], sent, local, remote, []) && AllSent(PlanFiles(plan), sent) {
      RetryCopies(ls, plan, |local|, m, sent, local, remote);
      assert remote[..|remote|] == remote;
    }
  }

  /** Such a flush, request by request. */
  method RetryRun(local: seq<byte>, remote: seq<byte>, ghost org: int, m: int) returns (reply: seq<byte>)
    requires |local| == |remote| && local != remote && MIN_MULTIPART_SIZE <= m < |local| <= MAX_MULTIPART_CNT * m
    ensures reply == remote != View(AllWrittenTo(|local|), local, remote, org)
  {
    var info := new PseudoFdInfo();
    var _, ls, wait, plan := info.ExtractUploadPartsFromAllArea([], m, |local|, true);
    CeilLe(|local|, MAX_MULTIPART_CNT, m);
    RetryLoses(local, remote, org, m, ls, plan, map[]);
    var _, _ := info.SendPlan(ls, wait, 0, local, remote, true, plan, m);
    RetryLoses(local, remote, org, m, ls, plan, info.sent);
    PlanNonempty(plan, m);
    var _, etags := info.GetEtaglist();
    reply := Built(etags, info.sent);
  }

  lemma PlanNonempty(plan: seq<Planned>, m: int)
    requires 0 < EndOf(plan)
    ensures PlanFiles(plan) != []
  {
  }

  // ---- a gap that was written and uploaded

  /** Two blocks; the second was written and uploaded, and its last 5 MB were written again. */
  ghost function SecondWritten(m: nat): (st: seq<Status>)
    ensures |st| == 2 * m && forall i :: 0 <= i < 2 * m ==> st[i] == if i < m then Status(true, false) else WRITTEN
  {
    seq(2 * m, i => if i < m then Status(true, false) else WRITTEN)
  }

  ghost function SecondBlock(m: int): FilePart {
    FilePart(false, m, m, false, 2)
  }

  function TailPart(m: int): Part {
    Part(2 * m - MIN_MULTIPART_SIZE, MIN_MULTIPART_SIZE, 1)
  }

  /** A failure before the launch forgets the block, and with it the bytes in front of its tail. */
  lemma {:induction false} ForgottenGap(m: nat, org: int)
    requires 2 * MIN_MULTIPART_SIZE <= m
    ensures var st, list, u := SecondWritten(m), [SecondBlock(m)], [TailPart(m)];
            && Tracked(st, org, u, list) && Blocks(list, m) && UntouchedOf(list, u) == []
            && !Accounted(st, u, UntouchedOf(list, u))
  {
    var st, p, t := SecondWritten(m), SecondBlock(m), TailPart(m);
    var u := [t];
    assert [p][..0] == [] && UntouchedOf([], u) == [];
    assert u[0].Covers(2 * m - 1) && p.Covers(2 * m - 1);
    assert Touched(p, u);
    forall i | m <= i < 2 * m ensures InFiles([p], i) { assert p in [p] && p.Covers(i); }
    forall b | Holds(u, b) ensures 0 <= b < 2 * m { assert u[0].Covers(b); }
    assert st[m].modified && !Holds(u, m) && !InFiles([], m);
  }

  /** The next flush copies those bytes with the block in front of them. */
  lemma {:induction false} GapCopied(m: nat, ls: Lists, plan: seq<Planned>)
    requires 2 * MIN_MULTIPART_SIZE <= m && 2 * m <= FIVE_GB
    requires Divides(ls, plan, [TailPart(m)], 2 * m, m, true) && Keeps(plan) == [] && ls.cancel == [] && |plan| == 2
    requires GapsRight(plan, [TailPart(m)], [], m)
    ensures InMp(ls.copy, m)
  {
    var u := [TailPart(m)];
    PlanLimits(plan, m, 0);
    PlanLimits(plan, m, 1);
    forall b ensures Holds(u, b) <==> 2 * m - MIN_MULTIPART_SIZE <= b < 2 * m {
      assert u[0].Covers(b) <==> 2 * m - MIN_MULTIPART_SIZE <= b < 2 * m;
    }
    NoKeep(plan, 0);
    NoKeep(plan, 1);
    UploadWritten(ls, plan, u, 0);
    assert plan[0].kind == Copy;
    var k := PlannedAt(plan, Upload, 2 * m - 1);
    assert k == 1 && !Listed([], 2) && GapRight(plan, u, [], m, 1);
    assert FirstWritten(u, m, 2 * m, 2 * m - MIN_MULTIPART_SIZE);
    PlannedIn(plan, 0, m);
  }

  lemma NoKeep(plan: seq<Planned>, k: nat)
    requires k < |plan| && Keeps(plan) == []
    ensures plan[k].kind != Keep
  {
    if plan[k].kind == Keep { KeptMember(plan, k); }
  }

  lemma UploadWritten(ls: Lists, plan: seq<Planned>, u: seq<Part>, k: nat)
    requires k < |plan| && ls.up == AreasOf(plan, Upload) && AllWritten(ls.up, u)
    ensures plan[k].kind == Upload ==> !NoneIn(u, plan[k].file.start, plan[k].file.start + plan[k].file.size)
  {
    if plan[k].kind == Upload {
      AreaMember(plan, Upload, k);
    }
  }

  lemma {:induction false} AreaMember(plan: seq<Planned>, kind: Kind, k: nat)
    requires k < |plan| && plan[k].kind == kind
    ensures MpPart(plan[k].file.start, plan[k].file.size, plan[k].file.partNum) in AreasOf(plan, kind)
  {
    if k < |plan| - 1 {
      AreaMember(plan[..|plan| - 1], kind, k);
    }
  }

  /** Unless the byte happens to be that of the old object, the object is not the file. */
  lemma {:induction false} GapLost(m: nat, ls: Lists, plan: seq<Planned>, local: seq<byte>, remote: seq<byte>, org: int,
                sent: map<int, seq<byte>>)
    requires 2 * MIN_MULTIPART_SIZE <= m && 2 * m <= FIVE_GB
    requires Divides(ls, plan, [TailPart(m)], 2 * m, m, true) && Keeps(plan) == [] && ls.cancel == [] && |plan| == 2
    requires GapsRight(plan, [TailPart(m)], [], m)
    requires |local| == |remote| == 2 * m && local[m] != remote[m]
    requires RightFor(PlanFiles(plan), [], sent, local, remote, []) && AllSent(PlanFiles(plan), sent)
    ensures Assembled(PlanFiles(plan), sent) != View(SecondWritten(m), local, remote, org)
  {
    var st := SecondWritten(m);
    GapCopied(m, ls, plan);
    forall k | 0 <= k < |plan|
      ensures plan[k].file.partNum in sent && Delivers(sent[plan[k].file.partNum], plan[k].file, local, remote, [])
    {
      SentRight(plan, sent, local, remote, k);
    }
    ObjectIff(ls, plan, [TailPart(m)], m, true, st, local, remote, org, sent);
    assert View(st, local, remote, org)[m] == local[m];
  }

  /** Both divisions and the requests of the second flush. */
  method ForgetAndRetry(info: PseudoFdInfo, local: seq<byte>, remote: seq<byte>, ghost org: int, m: nat)
    returns (reply: seq<byte>)
    requires 2 * MIN_MULTIPART_SIZE <= m && 2 * m <= FIVE_GB && |local| == |remote| == 2 * m && local[m] != remote[m]
    requires info.Valid() && info.uploading && info.uploadList == [SecondBlock(m)]
    requires info.Right(local, remote, [TailPart(m)]) && info.OnTrack(2 * m, 2 * m)
    modifies info
    ensures reply != View(SecondWritten(m), local, remote, org)
  {
    ForgottenGap(m, org);
    var _, _, _, _ := info.ExtractUploadPartsFromAllArea([TailPart(m)], m, 2 * m, true);
    assert info.uploadList == [];
    var _, ls, wait, plan := info.ExtractUploadPartsFromAllArea([TailPart(m)], m, 2 * m, true);
    TwoBlocks(m);
    GapTaken(m, ls, plan);
    var _, _ := info.SendPlan(ls, wait, 0, local, remote, true, plan, m);
    GapLost(m, ls, plan, local, remote, org, info.sent);
    PlanNonempty(plan, m);
    var _, etags := info.GetEtaglist();
    reply := Built(etags, info.sent);
  }

  lemma TwoBlocks(m: int)
    requires 0 < m
    ensures Ceil(2 * m, m) == 2
  {
    MulDiv(2, m);
  }

  lemma {:induction false} GapTaken(m: nat, ls: Lists, plan: seq<Planned>)
    requires 2 * MIN_MULTIPART_SIZE <= m && Divides(ls, plan, [TailPart(m)], 2 * m, m, true) && |plan| == 2
    ensures AreasTaken(ls.up, ls.copy, 2 * m, 2 * m)
  {
    AreaNums(plan, Upload, m);
    AreaNums(plan, Copy, m);
    forall p | p in ls.up ensures Takes(FileOf(p, false), 2 * m, 2 * m) {
      assert StandsFor(p, plan, Upload);
      InMpMember(ls.up, p, p.start + p.size - 1);
    }
    forall p | p in ls.copy ensures Takes(FileOf(p, true), 2 * m, 2 * m) {
      assert StandsFor(p, plan, Copy);
      InMpMember(ls.copy, p, p.start + p.size - 1);
      PlannedBelow(plan, Copy, m, p.start + p.size - 1);
    }
  }

  // ---- a truncation into an uploaded block

  /** One block, written and uploaded; a truncation to any size below its end leaves the upload out of
      order: the list names bytes the file no longer has. */
  lemma {:induction false} ShrunkBlock(local: seq<byte>, remote: seq<byte>, org: int, size: nat)
    requires 0 < |local| && size < |local| && 0 <= org <= |local|
    ensures var m, list, sent := |local|, [FilePart(false, 0, |local|, false, 1)], map[1 := local];
            var st, org' := AllWrittenTo(m), OpenedOrg(org, size, -1);
            && StreamFor(st, org, local, remote, [], list, [], sent, m)
            && !StreamFor(Sized(st, size, ZERO_FILLED), org', Fitted(local, size), remote,
                          if org < size then [Part(org, size - org, 1)] else [], list, [], sent, m)
  {
    var p := FilePart(false, 0, |local|, false, 1);
    assert p in [p] && IsBlock(p, |local|);
    forall i | 0 <= i < |local| ensures InFiles([p], i) { assert p.Covers(i); }
    assert forall b :: !Holds([], b);
    assert Arrived(p, [], map[1 := local], local, remote, []);
    assert !EndsBy([p], size);
  }
}
