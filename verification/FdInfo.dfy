/** The class PseudoFdInfo of fdcache_fdinfo.cpp: the upload of one opened file. Upload workers and
    the storage service are part of the state: requests that are launched and not finished, and
    the parts the service has accepted. */
module FdInfos {
  import opened Limits
  import opened Untreated
  import opened StreamPlans

  // ---- the upload list

  /** list with p in the place its number gives it: appended, and the list sorted by number. */
  function Inserted(list: seq<FilePart>, p: FilePart): seq<FilePart> {
    if list == [] || list[|list| - 1].partNum <= p.partNum then list + [p]
    else Inserted(list[..|list| - 1], p) + [list[|list| - 1]]
  }

  lemma {:induction false} InsertedKeeps(list: seq<FilePart>, p: FilePart)
    ensures |Inserted(list, p)| == |list| + 1
    ensures forall q :: q in Inserted(list, p) <==> q in list || q == p
    ensures Numbered(list) && !Listed(list, p.partNum) ==> Numbered(Inserted(list, p))
  {
    InsertedIn(list, p);
    if Numbered(list) && !Listed(list, p.partNum) { InsertedNumbered(list, p); }
  }

  lemma {:induction false} InsertedIn(list: seq<FilePart>, p: FilePart)
    ensures |Inserted(list, p)| == |list| + 1
    ensures forall q :: q in Inserted(list, p) <==> q in list || q == p
  {
    if list != [] && p.partNum < list[|list| - 1].partNum {
      var front, last := list[..|list| - 1], list[|list| - 1];
      InsertedIn(front, p);
      assert list == front + [last];
    }
  }

  lemma {:induction false} InsertedNumbered(list: seq<FilePart>, p: FilePart)
    requires Numbered(list) && !Listed(list, p.partNum)
    ensures Numbered(Inserted(list, p))
  {
    if list == [] {
    } else if p.partNum < list[|list| - 1].partNum {
      var front, last := list[..|list| - 1], list[|list| - 1];
      assert list == front + [last] && forall q :: q in front ==> q in list;
      InsertedNumbered(front, p);
      InsertedIn(front, p);
      NumberedLast(list);
      NumberedFront(list);
      NumberedPush(Inserted(front, p), last);
    } else {
      assert list[|list| - 1] in list;
      NumberedLast(list);
      NumberedPush(list, p);
    }
  }

  lemma NumberedFront(list: seq<FilePart>)
    requires Numbered(list) && list != []
    ensures forall q :: q in list[..|list| - 1] ==> q.partNum < list[|list| - 1].partNum
  {
  }

  lemma NumberedLast(list: seq<FilePart>)
    requires Numbered(list) && list != []
    ensures forall q :: q in list ==> q.partNum <= list[|list| - 1].partNum
  {
  }

  lemma NumberedPush(list: seq<FilePart>, p: FilePart)
    requires Numbered(list) && forall q :: q in list ==> q.partNum < p.partNum
    ensures Numbered(list + [p])
  {
    forall j | 0 <= j < |list| ensures list[j].partNum < p.partNum { assert list[j] in list; }
  }

  function FileOf(p: MpPart, isCopy: bool): FilePart {
    FilePart(false, p.start, p.size, isCopy, p.partNum)
  }

  ghost function FilesOf(ps: seq<MpPart>, isCopy: bool): seq<FilePart> {
    if ps == [] then [] else FilesOf(ps[..|ps| - 1], isCopy) + [FileOf(ps[|ps| - 1], isCopy)]
  }

  ghost function InsertedAll(list: seq<FilePart>, ps: seq<MpPart>, isCopy: bool): seq<FilePart> {
    if ps == [] then list else Inserted(InsertedAll(list, ps[..|ps| - 1], isCopy), FileOf(ps[|ps| - 1], isCopy))
  }

  /** The arguments InsertUploadPart accepts. */
  predicate Proper(p: MpPart) {
    0 <= p.start && 0 < p.size && 0 <= p.partNum
  }

  // ---- requests in flight

  predicate NonePending(pending: seq<FilePart>, num: int) {
    forall i :: 0 <= i < |pending| ==> pending[i].partNum != num
  }

  /** The parts have different numbers, and no request for any of these is in flight. */
  ghost predicate NoneInFlight(pending: seq<FilePart>, ps: seq<MpPart>) {
    Distinct(ps) && forall i :: 0 <= i < |ps| ==> NonePending(pending, ps[i].partNum)
  }

  lemma NextFree(pending: seq<FilePart>, ps: seq<MpPart>, isCopy: bool, i: nat)
    requires NoneInFlight(pending, ps) && i < |ps|
    ensures NonePending(pending + FilesOf(ps[..i], isCopy), ps[i].partNum)
  {
    FilesNumbers(ps[..i], isCopy);
  }

  lemma {:induction false} FilesNumbers(ps: seq<MpPart>, isCopy: bool)
    ensures |FilesOf(ps, isCopy)| == |ps|
    ensures forall i :: 0 <= i < |ps| ==> FilesOf(ps, isCopy)[i] == FileOf(ps[i], isCopy)
  {
    if ps != [] { FilesNumbers(ps[..|ps| - 1], isCopy); }
  }

  lemma BothFree(pending: seq<FilePart>, up: seq<MpPart>, copy: seq<MpPart>)
    requires NoneInFlight(pending, up + copy)
    ensures NoneInFlight(pending, up) && NoneInFlight(pending + FilesOf(up, false), copy)
  {
    var all := up + copy;
    assert forall i :: 0 <= i < |up| ==> all[i] == up[i];
    assert forall i :: 0 <= i < |copy| ==> all[|up| + i] == copy[i];
    FilesNumbers(up, false);
  }

  /** The newest request for p's number is for p. */
  ghost predicate Awaits(pending: seq<FilePart>, p: FilePart) {
    exists i :: 0 <= i < |pending| && pending[i] == p && forall k :: i < k < |pending| ==>
          pending[k].partNum != p.partNum
  }

  /** Request k may finish: requests for one part number finish in the order of their launch. */
  predicate MayFinish(pending: seq<FilePart>, k: int) {
    0 <= k < |pending| && forall i :: 0 <= i < k ==> pending[i].partNum != pending[k].partNum
  }

  ghost predicate NewestFor(pending: seq<FilePart>, k: int)
    requires 0 <= k < |pending|
  {
    forall i :: k < i < |pending| ==> pending[i].partNum != pending[k].partNum
  }

  function Without(pending: seq<FilePart>, k: nat): seq<FilePart>
    requires k < |pending|
  {
    pending[..k] + pending[k + 1..]
  }

  /** What an accepted request for p delivers: bytes copied from the old object, or read from the cache
      file. A byte written while the worker reads is untreated, and may arrive either way. The service
      knows no part number above its limit. */
  ghost predicate Delivers(data: seq<byte>, p: FilePart, local: seq<byte>, remote: seq<byte>, u: seq<Part>) {
    var source := if p.isCopy then remote else local;
    && p.partNum <= MAX_MULTIPART_CNT
    && 0 <= p.start && 0 <= p.size && p.start + p.size <= |source| && |data| == p.size
    && forall b :: p.start <= b < p.start + p.size && !Holds(u, b) ==> data[b - p.start] == source[b]
  }

  /** How a worker ends: it found an earlier error and did nothing, its request failed, or the
      service accepted the part. */
  datatype Outcome = Skipped | Failed(error: int) | Accepted(data: seq<byte>)

  /** last_result after a worker ended. */
  function ResultAfter(last: int, o: Outcome): int {
    match o
    case Skipped => last
    case Failed(error) => error
    case Accepted(_) => 0
  }

  function SentAfter(pending: seq<FilePart>, sent: map<int, seq<byte>>, k: nat, o: Outcome): map<int, seq<byte>>
    requires k < |pending|
  {
    if o.Accepted? && forall i :: k < i < |pending| ==> pending[i].partNum != pending[k].partNum
    then sent[pending[k].partNum := o.data] else sent
  }

  /** Worker k may end like this. */
  ghost predicate MayEnd(pending: seq<FilePart>, k: nat, o: Outcome, local: seq<byte>, remote: seq<byte>, u: seq<Part>)
    requires k < |pending|
  {
    && (o.Failed? ==> o.error != 0) && (o.Accepted? ==> pending[k].partNum <= MAX_MULTIPART_CNT)
    && (o.Accepted? && NewestFor(pending, k) ==> Delivers(o.data, pending[k], local, remote, u))
  }

  /** Every listed part is on its way, or what the service accepted for its number is right outside
      the untreated bytes. sent holds the numbers whose newest request was accepted. */
  ghost predicate Faithful(list: seq<FilePart>, pending: seq<FilePart>, sent: map<int, seq<byte>>,
                           local: seq<byte>, remote: seq<byte>, u: seq<Part>) {
    forall p :: p in list ==> Awaits(pending, p) || Arrived(p, pending, sent, local, remote, u)
  }

  ghost predicate Arrived(p: FilePart, pending: seq<FilePart>, sent: map<int, seq<byte>>,
                          local: seq<byte>, remote: seq<byte>, u: seq<Part>) {
    NonePending(pending, p.partNum) && (p.partNum in sent ==> Delivers(sent[p.partNum], p, local, remote, u))
  }

  lemma FinishOne(p: FilePart, pending: seq<FilePart>, sent: map<int, seq<byte>>, k: nat, o: Outcome,
                  local: seq<byte>, remote: seq<byte>, u: seq<Part>)
    requires MayFinish(pending, k) && MayEnd(pending, k, o, local, remote, u)
    requires Awaits(pending, p) || Arrived(p, pending, sent, local, remote, u)
    requires p.partNum == pending[k].partNum ==> p.partNum !in sent
    ensures var pending' := Without(pending, k);
            Awaits(pending', p) || Arrived(p, pending', SentAfter(pending, sent, k, o), local, remote, u)
  {
    var pending' := Without(pending, k);
    assert forall i :: 0 <= i < |pending'| ==> pending'[i] == if i < k then pending[i] else pending[i + 1];
    if NonePending(pending, p.partNum) {
      assert NonePending(pending', p.partNum);
    } else {
      var i :| 0 <= i < |pending| && pending[i] == p && forall j :: i < j < |pending| ==>
            pending[j].partNum != p.partNum;
      if i == k {
        assert NonePending(pending', p.partNum);
      } else {
        var i' := if i < k then i else i - 1;
        assert pending'[i'] == p;
        forall j | i' < j < |pending'| ensures pending'[j].partNum != p.partNum {
          assert pending'[j] == if j < k then pending[j] else pending[j + 1];
        }
        assert Awaits(pending', p);
      }
    }
  }

  /** Numbers in flight have nothing accepted for their newest request. */
  ghost predicate Fresh(pending: seq<FilePart>, sent: map<int, seq<byte>>) {
    forall i :: 0 <= i < |pending| ==> pending[i].partNum !in sent
  }

  /** Whenever a worker ends, the accepted parts stay right. */
  lemma FinishFaithful(list: seq<FilePart>, pending: seq<FilePart>, sent: map<int, seq<byte>>, k: nat, o: Outcome,
                       local: seq<byte>, remote: seq<byte>, u: seq<Part>)
    requires MayFinish(pending, k) && MayEnd(pending, k, o, local, remote, u)
    requires Faithful(list, pending, sent, local, remote, u) && Fresh(pending, sent)
    ensures Faithful(list, Without(pending, k), SentAfter(pending, sent, k, o), local, remote, u)
    ensures Fresh(Without(pending, k), SentAfter(pending, sent, k, o))
  {
    var pending', sent' := Without(pending, k), SentAfter(pending, sent, k, o);
    forall p | p in list ensures Awaits(pending', p) || Arrived(p, pending', sent', local, remote, u) {
      FinishOne(p, pending, sent, k, o, local, remote, u);
    }
    forall i | 0 <= i < |pending'| ensures pending'[i].partNum !in sent' {
      assert pending'[i] == if i < k then pending[i] else pending[i + 1];
    }
  }

  /** A new part: inserted into the list and launched. */
  lemma LaunchFaithful(list: seq<FilePart>, pending: seq<FilePart>, sent: map<int, seq<byte>>, p: FilePart,
                       local: seq<byte>, remote: seq<byte>, u: seq<Part>)
    requires Faithful(list, pending, sent, local, remote, u) && Fresh(pending, sent) && !Listed(list, p.partNum)
    ensures Faithful(Inserted(list, p), pending + [p], sent - {p.partNum}, local, remote, u)
    ensures Fresh(pending + [p], sent - {p.partNum})
  {
    InsertedKeeps(list, p);
    var pending', sent' := pending + [p], sent - {p.partNum};
    forall q | q in Inserted(list, p) ensures Awaits(pending', q) || Arrived(q, pending', sent', local, remote, u) {
      if q == p {
        assert pending'[|pending|] == p;
      } else if Awaits(pending, q) {
        var i :| 0 <= i < |pending| && pending[i] == q && forall k :: i < k < |pending| ==>
              pending[k].partNum != q.partNum;
        assert pending'[i] == q;
      } else {
        assert NonePending(pending', q.partNum);
      }
    }
  }

  ghost predicate NoneListed(list: seq<FilePart>, ps: seq<MpPart>) {
    forall i :: 0 <= i < |ps| ==> !Listed(list, ps[i].partNum)
  }

  ghost predicate Distinct(ps: seq<MpPart>) {
    forall j, k :: 0 <= j < k < |ps| ==> ps[j].partNum != ps[k].partNum
  }

  ghost function NumsOf(ps: seq<MpPart>): set<int> {
    set i | 0 <= i < |ps| :: ps[i].partNum
  }

  lemma NumsPush(ps: seq<MpPart>)
    requires ps != []
    ensures NumsOf(ps) == NumsOf(ps[..|ps| - 1]) + {ps[|ps| - 1].partNum}
  {
  }

  lemma {:induction false} InsertedAllIn(list: seq<FilePart>, ps: seq<MpPart>, isCopy: bool)
    ensures forall q :: q in InsertedAll(list, ps, isCopy) <==> q in list || q in FilesOf(ps, isCopy)
    ensures forall q :: q in FilesOf(ps, isCopy) ==> q.partNum in NumsOf(ps) && q.isCopy == isCopy
  {
    if ps != [] {
      InsertedAllIn(list, ps[..|ps| - 1], isCopy);
      InsertedKeeps(InsertedAll(list, ps[..|ps| - 1], isCopy), FileOf(ps[|ps| - 1], isCopy));
      NumsPush(ps);
    }
  }

  lemma NotYetListed(list: seq<FilePart>, ps: seq<MpPart>, isCopy: bool)
    requires ps != [] && NoneListed(list, ps) && Distinct(ps)
    ensures !Listed(InsertedAll(list, ps[..|ps| - 1], isCopy), ps[|ps| - 1].partNum)
    ensures NoneListed(list, ps[..|ps| - 1]) && Distinct(ps[..|ps| - 1])
  {
    var front, p := ps[..|ps| - 1], ps[|ps| - 1];
    InsertedAllIn(list, front, isCopy);
    assert !Listed(list, ps[|ps| - 1].partNum);
    assert p.partNum !in NumsOf(front);
  }

  lemma {:induction false} InsertedAllNumbered(list: seq<FilePart>, ps: seq<MpPart>, isCopy: bool)
    requires NoneListed(list, ps) && Distinct(ps) && Numbered(list)
    ensures Numbered(InsertedAll(list, ps, isCopy))
  {
    if ps != [] {
      NotYetListed(list, ps, isCopy);
      InsertedAllNumbered(list, ps[..|ps| - 1], isCopy);
      InsertedKeeps(InsertedAll(list, ps[..|ps| - 1], isCopy), FileOf(ps[|ps| - 1], isCopy));
    }
  }

  /** New parts with new numbers keep the accepted parts right. */
  lemma {:induction false} LaunchAll(list: seq<FilePart>, pending: seq<FilePart>, sent: map<int, seq<byte>>,
                                     ps: seq<MpPart>, isCopy: bool, local: seq<byte>, remote: seq<byte>, u: seq<Part>)
    requires NoneListed(list, ps) && Distinct(ps)
    requires Faithful(list, pending, sent, local, remote, u) && Fresh(pending, sent)
    ensures Faithful(InsertedAll(list, ps, isCopy), pending + FilesOf(ps, isCopy), sent - NumsOf(ps), local, remote, u)
    ensures Fresh(pending + FilesOf(ps, isCopy), sent - NumsOf(ps))
  {
    if ps == [] {
      assert pending + FilesOf(ps, isCopy) == pending && sent - NumsOf(ps) == sent;
    } else {
      var front, p := ps[..|ps| - 1], ps[|ps| - 1];
      NotYetListed(list, ps, isCopy);
      LaunchAll(list, pending, sent, front, isCopy, local, remote, u);
      LaunchFaithful(InsertedAll(list, front, isCopy), pending + FilesOf(front, isCopy), sent - NumsOf(front),
                     FileOf(p, isCopy), local, remote, u);
      InsertedKeeps(InsertedAll(list, front, isCopy), FileOf(p, isCopy));
      NumsPush(ps);
      assert (sent - NumsOf(front)) - {p.partNum} == sent - NumsOf(ps);
      assert (pending + FilesOf(front, isCopy)) + [FileOf(p, isCopy)] == pending + FilesOf(ps, isCopy);
    }
  }

  /** The invariant of an upload: see Faithful. */
  ghost predicate RightFor(list: seq<FilePart>, pending: seq<FilePart>, sent: map<int, seq<byte>>,
                           local: seq<byte>, remote: seq<byte>, u: seq<Part>) {
    Numbered(list) && Fresh(pending, sent) && Faithful(list, pending, sent, local, remote, u)
  }

  // ---- an upload in which nothing fails

  /** Every listed part was accepted or is on its way. */
  ghost predicate Delivered(list: seq<FilePart>, pending: seq<FilePart>, sent: map<int, seq<byte>>) {
    forall p :: p in list ==> Awaits(pending, p) || p.partNum in sent
  }

  /** The service takes the request: it knows the number, and the bytes exist in a cache file and an
      object of these sizes. */
  predicate Takes(r: FilePart, localSize: int, remoteSize: int) {
    && r.partNum <= MAX_MULTIPART_CNT
    && 0 <= r.start && 0 <= r.size && r.start + r.size <= if r.isCopy then remoteSize else localSize
  }

  /** The parts lie in a file of size bytes, which is within the limit of the service. */
  ghost predicate Holding(list: seq<FilePart>, size: int, m: int) {
    EndsBy(list, size) && size <= MAX_MULTIPART_CNT * m
  }

  ghost predicate Reachable(pending: seq<FilePart>, localSize: int, remoteSize: int) {
    forall r :: r in pending ==> Takes(r, localSize, remoteSize)
  }

  /** So far nothing failed, and for a cache file and an object of these sizes nothing has to. */
  ghost predicate OnTrackFor(list: seq<FilePart>, pending: seq<FilePart>, sent: map<int, seq<byte>>, last: int,
                             localSize: int, remoteSize: int) {
    last == 0 && Delivered(list, pending, sent) && Reachable(pending, localSize, remoteSize)
  }

  lemma AwaitsWithout(pending: seq<FilePart>, k: nat, p: FilePart)
    requires k < |pending| && Awaits(pending, p)
    ensures Awaits(Without(pending, k), p) || (pending[k] == p && NewestFor(pending, k))
  {
    var pending' := Without(pending, k);
    var i :| 0 <= i < |pending| && pending[i] == p && forall j :: i < j < |pending| ==> pending[j].partNum != p.partNum;
    if i != k {
      var i' := if i < k then i else i - 1;
      assert pending'[i'] == p;
      forall j | i' < j < |pending'| ensures pending'[j].partNum != p.partNum {
        assert pending'[j] == if j < k then pending[j] else pending[j + 1];
      }
    }
  }

  /** A worker whose request is accepted leaves nothing undelivered. */
  lemma FinishDelivered(list: seq<FilePart>, pending: seq<FilePart>, sent: map<int, seq<byte>>, k: nat, data: seq<byte>)
    requires k < |pending| && Delivered(list, pending, sent)
    ensures Delivered(list, Without(pending, k), SentAfter(pending, sent, k, Accepted(data)))
    ensures forall r :: r in Without(pending, k) ==> r in pending
  {
    var pending', sent' := Without(pending, k), SentAfter(pending, sent, k, Accepted(data));
    forall p | p in list ensures Awaits(pending', p) || p.partNum in sent' {
      if Awaits(pending, p) { AwaitsWithout(pending, k, p); }
    }
  }

  lemma LaunchDelivered(list: seq<FilePart>, pending: seq<FilePart>, sent: map<int, seq<byte>>, p: FilePart)
    requires Delivered(list, pending, sent) && !Listed(list, p.partNum)
    ensures Delivered(Inserted(list, p), pending + [p], sent - {p.partNum})
  {
    InsertedKeeps(list, p);
    var pending' := pending + [p];
    assert pending'[|pending|] == p;
    forall q | q in list ensures Awaits(pending', q) || q.partNum in sent - {p.partNum} {
      assert q.partNum != p.partNum;
      if i :| 0 <= i < |pending| && pending[i] == q && forall k :: i < k < |pending| ==>
            pending[k].partNum != q.partNum {
        assert pending'[i] == q;
      }
    }
  }

  lemma {:induction false} LaunchAllDelivered(list: seq<FilePart>, pending: seq<FilePart>, sent: map<int, seq<byte>>,
                                              ps: seq<MpPart>, isCopy: bool)
    requires NoneListed(list, ps) && Distinct(ps) && Delivered(list, pending, sent)
    ensures Delivered(InsertedAll(list, ps, isCopy), pending + FilesOf(ps, isCopy), sent - NumsOf(ps))
  {
    if ps == [] {
      assert pending + FilesOf(ps, isCopy) == pending && sent - NumsOf(ps) == sent;
    } else {
      var front, p := ps[..|ps| - 1], ps[|ps| - 1];
      NotYetListed(list, ps, isCopy);
      LaunchAllDelivered(list, pending, sent, front, isCopy);
      LaunchDelivered(InsertedAll(list, front, isCopy), pending + FilesOf(front, isCopy), sent - NumsOf(front),
                      FileOf(p, isCopy));
      NumsPush(ps);
      assert (sent - NumsOf(front)) - {p.partNum} == sent - NumsOf(ps);
      assert (pending + FilesOf(front, isCopy)) + [FileOf(p, isCopy)] == pending + FilesOf(ps, isCopy);
    }
  }

  /** Once nothing is in flight every listed part has its etag. */
  lemma DeliveredSent(list: seq<FilePart>, sent: map<int, seq<byte>>)
    requires Delivered(list, [], sent)
    ensures AllSent(list, sent)
  {
    forall p | p in list ensures p.partNum in sent { assert !Awaits([], p); }
  }

  // ---- what last_result tells

  /** last_result after the workers ended one by one. */
  ghost function ResultOf(os: seq<Outcome>): int {
    if os == [] then 0 else ResultAfter(ResultOf(os[..|os| - 1]), os[|os| - 1])
  }

  /** Some request was accepted after number i. */
  ghost predicate AcceptedAfter(os: seq<Outcome>, i: int) {
    exists j :: i < j < |os| && 0 <= j && os[j].Accepted?
  }

  /** A worker's success overwrites the error of another one: the result is 0 exactly if every failed
      request is followed by an accepted one. */
  lemma {:induction false} ResultTells(os: seq<Outcome>)
    requires forall i :: 0 <= i < |os| && os[i].Failed? ==> os[i].error != 0
    ensures ResultOf(os) == 0 <==> forall i :: 0 <= i < |os| && os[i].Failed? ==> AcceptedAfter(os, i)
  {
    if os != [] {
      var n := |os| - 1;
      var front := os[..n];
      ResultTells(front);
      forall i | 0 <= i < n ensures AcceptedAfter(os, i) <==> AcceptedAfter(front, i) || os[n].Accepted? {
        if j :| i < j < |front| && front[j].Accepted? { assert os[j].Accepted?; }
        if j :| i < j < |os| && os[j].Accepted? { assert j < n ==> front[j].Accepted?; }
      }
      if os[n].Failed? { assert !AcceptedAfter(os, n); }
    }
  }

  /** So a lost part can go unnoticed by the result of the wait. */
  lemma LostError()
    ensures var os := [Failed(-5), Accepted([])];
            os[0].Failed? && ResultOf(os) == 0
  {
    var os := [Failed(-5), Accepted([])];
    assert ResultOf(os[..1]) == -5 by { assert os[..1][..0] == []; }
  }

  // ---- uploading the last written area

  /** The block-aligned stretch inside [start, start + size): n blocks from number lo on. */
  ghost function FirstBlock(start: int, m: int): int
    requires 0 <= start && 0 < m
  {
    Ceil(start, m) + 1
  }

  ghost function BlockCount(start: int, size: int, m: int): int
    requires 0 <= start && 0 < m
  {
    if start + size <= Ceil(start, m) * m then 0 else (start + size - Ceil(start, m) * m) / m
  }

  /** It is the largest such stretch. */
  lemma LargestAligned(start: int, size: int, m: int, k: int)
    requires 0 <= start && 0 < size && 0 < m
    ensures var lo, n := FirstBlock(start, m), BlockCount(start, size, m);
            && 0 <= n && (start <= (k - 1) * m && k * m <= start + size <==> lo <= k < lo + n)
  {
    var c := Ceil(start, m);
    CeilLe(start, k - 1, m);
    FloorLe(start + size, k, m);
    FloorLe(start + size, c, m);
    if c * m < start + size {
      FloorLess(start + size, c, m);
    } else {
      FloorLe(c * m, k, m);
      MulDiv(c, m);
    }
  }

  lemma FloorLe(x: int, k: int, m: int)
    requires 0 <= x && 0 < m
    ensures k * m <= x <==> k <= x / m
  {
    MulLe(k, x / m, m);
    MulLe(x / m + 1, k, m);
    MulLe(x / m, x / m + 1, m);
  }

  lemma FloorLess(x: int, c: int, m: int)
    requires 0 <= c && 0 < m && c * m < x
    ensures (x - c * m) / m == x / m - c
  {
    assert (x / m - c) * m == x / m * m - c * m;
    DivUnique(x - c * m, x / m - c, x % m, m);
  }

  lemma {:induction false} BlockRunIn(lo: int, n: nat, m: int)
    requires 1 <= lo && 0 < m
    ensures |BlockRun(lo, n, m)| == n
    ensures forall i :: 0 <= i < n ==> BlockRun(lo, n, m)[i] == MpPart((lo + i - 1) * m, m, lo + i)
    ensures Distinct(BlockRun(lo, n, m)) && forall i :: 0 <= i < n ==> Proper(BlockRun(lo, n, m)[i])
  {
    if n > 0 {
      BlockRunIn(lo, n - 1, m);
      MulLe(0, lo + n - 2, m);
    }
  }

  lemma {:induction false} RunFiles(lo: int, n: nat, m: int, q: FilePart)
    requires 1 <= lo && 0 < m
    ensures q in FilesOf(BlockRun(lo, n, m), false) <==> IsBlock(q, m) && !q.uploaded && lo <= q.partNum < lo + n
  {
    if n > 0 {
      var run := BlockRun(lo, n, m);
      assert run[..|run| - 1] == BlockRun(lo, n - 1, m);
      RunFiles(lo, n - 1, m, q);
    }
  }

  /** list' is list with blocks lo to hi taken out and launched anew. */
  ghost predicate Relaunched(list: seq<FilePart>, lo: int, hi: int, m: int, list': seq<FilePart>) {
    forall q :: q in list' <==>
      (q in list && !(lo <= q.partNum <= hi)) || (IsBlock(q, m) && !q.uploaded && lo <= q.partNum <= hi)
  }

  lemma BoundaryList(list: seq<FilePart>, lo: int, n: nat, m: int)
    requires 1 <= lo && 0 < m
    ensures Relaunched(list, lo, lo + n - 1, m, InsertedAll(Outside(list, lo, lo + n - 1), BlockRun(lo, n, m), false))
  {
    var out, run := Outside(list, lo, lo + n - 1), BlockRun(lo, n, m);
    var list' := InsertedAll(out, run, false);
    OutsideIn(list, lo, lo + n - 1);
    InsertedAllIn(out, run, false);
    forall q
      ensures q in list' <==>
                (q in list && !(lo <= q.partNum <= lo + n - 1))
                    || (IsBlock(q, m) && !q.uploaded && lo <= q.partNum <= lo + n - 1)
    {
      RunFiles(lo, n, m, q);
    }
  }

  lemma RunNotListed(list: seq<FilePart>, lo: int, n: nat, m: int)
    requires 1 <= lo && 0 < m
    ensures NoneListed(Outside(list, lo, lo + n - 1), BlockRun(lo, n, m)) && Distinct(BlockRun(lo, n, m))
  {
    OutsideIn(list, lo, lo + n - 1);
    BlockRunIn(lo, n, m);
  }

  /** Blocks outside the stretch are right with respect to the smaller untreated list. */
  lemma OutsideRight(list: seq<FilePart>, pending: seq<FilePart>, sent: map<int, seq<byte>>, lo: int, n: nat, m: int,
                     local: seq<byte>, remote: seq<byte>, u: seq<Part>, u': seq<Part>)
    requires Blocks(list, m) && 0 < m && 0 < n && Removes(u, (lo - 1) * m, n * m, u')
    requires Faithful(list, pending, sent, local, remote, u)
    ensures Faithful(Outside(list, lo, lo + n - 1), pending, sent, local, remote, u')
  {
    var out := Outside(list, lo, lo + n - 1);
    OutsideIn(list, lo, lo + n - 1);
    MulUp(n, m);
    forall p | p in out ensures Awaits(pending, p) || Arrived(p, pending, sent, local, remote, u') {
      AwayFrom(p.partNum, lo, n, m);
      SameHolds(u, (lo - 1) * m, n * m, u', p.start, p.start + p.size);
      ArrivedSame(p, pending, sent, local, remote, u, u');
    }
  }

  lemma SameHolds(u: seq<Part>, start: int, size: int, u': seq<Part>, from: int, to: int)
    requires Removes(u, start, size, u') && 0 < size && (to <= start || start + size <= from)
    ensures forall b :: from <= b < to ==> (Holds(u, b) <==> Holds(u', b))
  {
  }

  lemma ArrivedSame(p: FilePart, pending: seq<FilePart>, sent: map<int, seq<byte>>, local: seq<byte>, remote: seq<byte>,
                    u: seq<Part>, u': seq<Part>)
    requires forall b :: p.start <= b < p.start + p.size ==> (Holds(u, b) <==> Holds(u', b))
    ensures Arrived(p, pending, sent, local, remote, u) ==> Arrived(p, pending, sent, local, remote, u')
  {
  }

  lemma AwayFrom(num: int, lo: int, n: nat, m: int)
    requires 0 < m && !(lo <= num <= lo + n - 1)
    ensures (num - 1) * m + m <= (lo - 1) * m || (lo - 1) * m + n * m <= (num - 1) * m
  {
    MulLe(num, lo - 1, m);
    MulLe(num - 1, num, m);
    MulLe(lo + n - 1, num - 1, m);
    assert (lo + n - 1) * m == (lo - 1) * m + n * m;
  }

  lemma AlignedArea(c: int, n: int, m: int)
    requires 0 < m && 0 <= c && 0 < n
    ensures 0 <= c * m && 0 < n * m && c * m / m == c && c * m / m * m + m <= c * m + n * m
    ensures Ceil(c * m + n * m, m) == c + n && (c * m + n * m) / m == c + n
  {
    MulDiv(c, m);
    MulUp(n, m);
    MulLe(1, n, m);
    assert c * m + n * m == (c + n) * m;
    MulDiv(c + n, m);
  }

  /** The blocks of the stretch were taken out of the list and launched, and its bytes left the
      untreated list: the upload stays right. Of a new upload nothing is accepted yet. */
  lemma BoundaryUpload(list: seq<FilePart>, pending: seq<FilePart>, sent: map<int, seq<byte>>, lo: int, n: nat, m: int,
                       u: seq<Part>, list': seq<FilePart>, pending': seq<FilePart>, sent': map<int, seq<byte>>,
                           u': seq<Part>)
    requires Blocks(list, m) && 0 < m && 0 < n && 1 <= lo && Removes(u, (lo - 1) * m, n * m, u')
    requires list' == InsertedAll(Outside(list, lo, lo + n - 1), BlockRun(lo, n, m), false)
    requires pending' == pending + FilesOf(BlockRun(lo, n, m), false)
    requires sent' == sent - NumsOf(BlockRun(lo, n, m)) || (list == [] && sent' == map[])
    ensures Blocks(list', m) && Relaunched(list, lo, lo + n - 1, m, list')
    ensures forall local, remote :: RightFor(list, pending, sent, local, remote, u) ==>
              RightFor(list', pending', sent', local, remote, u')
  {
    BoundaryBlocks(list, lo, n, m);
    forall local, remote | RightFor(list, pending, sent, local, remote, u)
      ensures RightFor(list', pending', sent', local, remote, u')
    {
      if list == [] && sent' == map[] {
        NewRight(pending, local, remote, u);
        assert sent' == map[] - NumsOf(BlockRun(lo, n, m));
        BoundaryRight(list, pending, map[], lo, n, m, local, remote, u, u');
      } else {
        BoundaryRight(list, pending, sent, lo, n, m, local, remote, u, u');
      }
    }
  }

  lemma BoundaryBlocks(list: seq<FilePart>, lo: int, n: nat, m: int)
    requires Blocks(list, m) && 0 < m && 1 <= lo
    ensures var list' := InsertedAll(Outside(list, lo, lo + n - 1), BlockRun(lo, n, m), false);
            Blocks(list', m) && Relaunched(list, lo, lo + n - 1, m, list')
  {
    BoundaryList(list, lo, n, m);
    RunNotListed(list, lo, n, m);
    OutsideIn(list, lo, lo + n - 1);
    InsertedAllNumbered(Outside(list, lo, lo + n - 1), BlockRun(lo, n, m), false);
  }

  lemma NewRight(pending: seq<FilePart>, local: seq<byte>, remote: seq<byte>, u: seq<Part>)
    ensures RightFor([], pending, map[], local, remote, u)
  {
  }

  /** ... and nothing gets lost on the way. */
  lemma BoundaryOnTrack(list: seq<FilePart>, pending: seq<FilePart>, sent: map<int, seq<byte>>, last: int, lo: int,
                        n: nat, m: int, list': seq<FilePart>, pending': seq<FilePart>, sent': map<int, seq<byte>>,
                            last': int)
    requires 0 < m && 0 < n && 1 <= lo && (last' == last || last' == 0)
    requires list' == InsertedAll(Outside(list, lo, lo + n - 1), BlockRun(lo, n, m), false)
    requires pending' == pending + FilesOf(BlockRun(lo, n, m), false)
    requires sent' == sent - NumsOf(BlockRun(lo, n, m)) || (list == [] && sent' == map[])
    ensures forall N, R :: OnTrackFor(list, pending, sent, last, N, R) && Holding(list', N, m) ==>
                             OnTrackFor(list', pending', sent', last', N, R)
  {
    forall N, R | OnTrackFor(list, pending, sent, last, N, R) && Holding(list', N, m)
      ensures OnTrackFor(list', pending', sent', last', N, R)
    {
      RunReachable(list, lo, n, m, N, R);
      if list == [] && sent' == map[] {
        assert sent' == map[] - NumsOf(BlockRun(lo, n, m));
        BoundaryDelivered(list, pending, map[], lo, n, m, list', pending', sent');
      } else {
        BoundaryDelivered(list, pending, sent, lo, n, m, list', pending', sent');
      }
    }
  }

  lemma {:induction false} BoundaryDelivered(list: seq<FilePart>, pending: seq<FilePart>, sent: map<int, seq<byte>>,
                                             lo: int, n: nat, m: int, list': seq<FilePart>, pending': seq<FilePart>,
                                             sent': map<int, seq<byte>>)
    requires 0 < m && 1 <= lo && Delivered(list, pending, sent)
    requires list' == InsertedAll(Outside(list, lo, lo + n - 1), BlockRun(lo, n, m), false)
    requires pending' == pending + FilesOf(BlockRun(lo, n, m), false) && sent' == sent - NumsOf(BlockRun(lo, n, m))
    ensures Delivered(list', pending', sent')
  {
    RunNotListed(list, lo, n, m);
    DeliveredOutside(list, pending, sent, lo, lo + n - 1);
    LaunchAllDelivered(Outside(list, lo, lo + n - 1), pending, sent, BlockRun(lo, n, m), false);
  }

  lemma {:induction false} DeliveredOutside(list: seq<FilePart>, pending: seq<FilePart>, sent: map<int, seq<byte>>,
                                            lo: int, hi: int)
    requires Delivered(list, pending, sent)
    ensures Delivered(Outside(list, lo, hi), pending, sent)
  {
    OutsideIn(list, lo, hi);
  }

  lemma RunReachable(list: seq<FilePart>, lo: int, n: nat, m: int, N: int, R: int)
    requires 0 < m && 1 <= lo && Holding(InsertedAll(Outside(list, lo, lo + n - 1), BlockRun(lo, n, m), false), N, m)
    ensures Reachable(FilesOf(BlockRun(lo, n, m), false), N, R)
  {
    var out, run := Outside(list, lo, lo + n - 1), BlockRun(lo, n, m);
    InsertedAllIn(out, run, false);
    forall q | q in FilesOf(run, false) ensures Takes(q, N, R) {
      RunFiles(lo, n, m, q);
      MulLe(0, q.partNum - 1, m);
      MulLe(q.partNum, MAX_MULTIPART_CNT, m);
      MulLe(q.partNum - 1, q.partNum, m);
    }
  }

  lemma BoundaryRight(list: seq<FilePart>, pending: seq<FilePart>, sent: map<int, seq<byte>>, lo: int, n: nat, m: int,
                      local: seq<byte>, remote: seq<byte>, u: seq<Part>, u': seq<Part>)
    requires Blocks(list, m) && 0 < m && 0 < n && 1 <= lo && Removes(u, (lo - 1) * m, n * m, u')
    requires RightFor(list, pending, sent, local, remote, u)
    ensures var run := BlockRun(lo, n, m);
            RightFor(InsertedAll(Outside(list, lo, lo + n - 1), run, false), pending + FilesOf(run, false),
                     sent - NumsOf(run), local, remote, u')
  {
    var out, run := Outside(list, lo, lo + n - 1), BlockRun(lo, n, m);
    RunNotListed(list, lo, n, m);
    OutsideIn(list, lo, lo + n - 1);
    InsertedAllNumbered(out, run, false);
    OutsideRight(list, pending, sent, lo, n, m, local, remote, u, u');
    LaunchAll(out, pending, sent, run, false, local, remote, u');
  }

  /** The blocks a background upload launches: the largest run of whole blocks inside the part that
      was written last. */
  ghost function BoundaryRun(ps: seq<Part>, tag: int, m: int): seq<MpPart>
    requires Separate(ps) && 0 < m
  {
    var k := FindTag(ps, tag);
    if k == |ps| || BlockCount(ps[k].start, ps[k].size, m) <= 0 then []
    else BlockRun(FirstBlock(ps[k].start, m), BlockCount(ps[k].start, ps[k].size, m), m)
  }

  /** The area lies in the part written last. */
  ghost predicate InNewest(u: seq<Part>, tag: int, from: int, to: int) {
    var k := FindTag(u, tag);
    k < |u| && u[k].start <= from && to <= u[k].start + u[k].size
  }

  /** A whole block inside the part written last. */
  ghost predicate WholeBlock(u: seq<Part>, tag: int, m: int, p: FilePart) {
    IsBlock(p, m) && InNewest(u, tag, p.start, p.start + p.size)
  }

  ghost predicate NoneWhole(u: seq<Part>, tag: int, m: int) {
    forall p: FilePart :: !WholeBlock(u, tag, m, p)
  }

  /** The run is made of exactly these. */
  lemma WholeRun(u: seq<Part>, tag: int, m: int)
    requires Separate(u) && 0 < m
    ensures forall p :: p in FilesOf(BoundaryRun(u, tag, m), false) <==> WholeBlock(u, tag, m, p)
    ensures BoundaryRun(u, tag, m) == [] <==> NoneWhole(u, tag, m)
  {
    var k, run := FindTag(u, tag), BoundaryRun(u, tag, m);
    if k < |u| {
      var lo, n := FirstBlock(u[k].start, m), BlockCount(u[k].start, u[k].size, m);
      BlockInside(u[k].start, u[k].size, m, FilePart(false, 0, m, false, 1));
      forall p ensures p in FilesOf(run, false) <==> WholeBlock(u, tag, m, p) {
        if IsBlock(p, m) { RunIsWhole(u, tag, m, k, p); } else if 0 < n { RunFiles(lo, n, m, p); }
      }
    }
    FilesNumbers(run, false);
    if run != [] { assert FilesOf(run, false)[0] in FilesOf(run, false); }
  }

  lemma RunEmpty(u: seq<Part>, tag: int, m: int)
    requires Separate(u) && 0 < m
    ensures BoundaryRun(u, tag, m) == [] <==> NoneWhole(u, tag, m)
  {
    WholeRun(u, tag, m);
  }

  lemma RunIsWhole(u: seq<Part>, tag: int, m: int, k: nat, p: FilePart)
    requires Separate(u) && 0 < m && k == FindTag(u, tag) < |u| && IsBlock(p, m)
    ensures p in FilesOf(BoundaryRun(u, tag, m), false) <==> WholeBlock(u, tag, m, p)
  {
    var lo, n := FirstBlock(u[k].start, m), BlockCount(u[k].start, u[k].size, m);
    BlockInside(u[k].start, u[k].size, m, p);
    if 0 < n { RunFiles(lo, n, m, p); }
  }

  lemma BlockInside(start: int, size: int, m: int, p: FilePart)
    requires 0 <= start && 0 < size && 0 < m && IsBlock(p, m)
    ensures 1 <= FirstBlock(start, m)
    ensures start <= p.start && p.start + p.size <= start + size <==>
              FirstBlock(start, m) <= p.partNum < FirstBlock(start, m) + BlockCount(start, size, m)
  {
    LargestAligned(start, size, m, p.partNum);
    assert p.partNum * m == p.start + p.size;
  }

  /** Their bytes went from the untreated list to the upload list. */
  ghost predicate BoundaryMoved(ps: seq<Part>, tag: int, m: int, list: seq<FilePart>, ps': seq<Part>,
                                list': seq<FilePart>)
    requires Separate(ps) && 0 < m
  {
    var k := FindTag(ps, tag);
    var n := if k == |ps| then 0 else BlockCount(ps[k].start, ps[k].size, m);
    if n <= 0 then list' == list && ps' == ps
    else
      var lo := FirstBlock(ps[k].start, m);
      Relaunched(list, lo, lo + n - 1, m, list') && Removes(ps, (lo - 1) * m, n * m, ps')
  }

  /** The aligned stretch of an area; size 0 if it has none. */
  method AlignedStretch(start: int, size: int, m: int) returns (alignedStart: int, alignedSize: int)
    requires 0 <= start && 0 < size && 0 < m
    ensures alignedStart == Ceil(start, m) * m && alignedSize == BlockCount(start, size, m) * m
    ensures start <= alignedStart && (alignedStart + alignedSize <= start + size || alignedSize == 0)
    ensures 0 <= BlockCount(start, size, m) && (alignedSize == 0 <==> BlockCount(start, size, m) == 0)
  {
    alignedStart, alignedSize := (start / m + if 0 < start % m then 1 else 0) * m, 0;
    CeilLe(start, Ceil(start, m), m);
    if start + size <= alignedStart {
      return;
    }
    var n := (start + size - alignedStart) / m;
    alignedSize := n * m;
    MulLe(0, n, m);
  }

  method ExcludeStretch(u: UntreatedParts, start: int, size: int, alignedStart: int, alignedSize: int)
    requires u.Valid() && 0 < alignedSize
    requires var k := FindTag(u.list, u.lastTag); k < |u.list| && u.list[k].start == start && u.list[k].size == size
    requires start <= alignedStart && alignedStart + alignedSize <= start + size
    modifies u
    ensures u.Valid() && Removes(old(u.list), alignedStart, alignedSize, u.list)
  {
    var _ := ReplaceLastUpdateUntreatedPart(u, start, alignedStart - start, alignedStart + alignedSize,
                                            start + size - (alignedStart + alignedSize));
  }

  /** What is untreated or uploaded stays so: the bytes of the stretch only change sides. */
  lemma BoundaryConserves(list: seq<FilePart>, lo: int, n: nat, m: int, list': seq<FilePart>, u: seq<Part>,
                          u': seq<Part>, b: int)
    requires 1 <= lo && 0 < n && 0 < m && Relaunched(list, lo, lo + n - 1, m, list')
             && Removes(u, (lo - 1) * m, n * m, u')
    requires Blocks(list, m) && forall x :: (lo - 1) * m <= x < (lo - 1) * m + n * m ==> Holds(u, x)
    ensures Holds(u', b) || InFiles(list', b) <==> Holds(u, b) || InFiles(list, b)
    ensures InFiles(list', b) && !InFiles(list, b) ==> (lo - 1) * m <= b < (lo - 1) * m + n * m
  {
    MulUp(n, m);
    MulDiv(lo - 1, m);
    assert (lo + n - 1) * m == (lo - 1) * m + n * m;
    if (lo - 1) * m <= b < (lo - 1) * m + n * m {
      StretchBlock(lo, n, m, b);
      var q := FilePart(false, b / m * m, m, false, b / m + 1);
      assert q in list' && q.Covers(b);
    }
    if p :| p in list && p.Covers(b) {
      if !(lo <= p.partNum <= lo + n - 1) { assert p in list'; } else { InStretch(p.partNum, lo, n, m); }
    }
    if p :| p in list' && p.Covers(b) {
      if lo <= p.partNum <= lo + n - 1 { InStretch(p.partNum, lo, n, m); } else { assert p in list; }
    }
  }

  lemma StretchBlock(lo: int, n: nat, m: int, b: int)
    requires 1 <= lo && 0 < m && (lo - 1) * m <= b < (lo - 1) * m + n * m
    ensures lo <= b / m + 1 <= lo + n - 1 && b / m * m <= b < b / m * m + m
  {
    MulLe(0, lo - 1, m);
    assert (lo - 1 + n) * m == (lo - 1) * m + n * m;
    FloorLe(b, lo - 1, m);
    FloorLe(b, lo - 1 + n, m);
  }

  lemma InStretch(num: int, lo: int, n: nat, m: int)
    requires lo <= num <= lo + n - 1 && 0 < m
    ensures (lo - 1) * m <= (num - 1) * m && (num - 1) * m + m <= (lo - 1) * m + n * m
  {
    MulLe(lo - 1, num - 1, m);
    MulLe(num, lo - 1 + n, m);
    MulLe(num - 1, num, m);
    assert (lo - 1 + n) * m == (lo - 1) * m + n * m;
  }

  // ---- the completed object

  /** The completion request sends an etag for every listed part; one without is refused. */
  ghost predicate AllSent(list: seq<FilePart>, sent: map<int, seq<byte>>) {
    forall p :: p in list ==> p.partNum in sent
  }

  /** The object the service builds from the listed parts. */
  ghost function Assembled(list: seq<FilePart>, sent: map<int, seq<byte>>): seq<byte>
    requires AllSent(list, sent)
  {
    if list == [] then []
    else
      var p := list[|list| - 1];
      assert p in list;
      Assembled(list[..|list| - 1], sent) + sent[p.partNum]
  }

  /** An entry of the completion request; an empty etag says that the part did not arrive. */
  datatype Etag = Etag(partNum: int, filled: bool)

  ghost function EtagsOf(list: seq<FilePart>, sent: map<int, seq<byte>>): seq<Etag> {
    if list == [] then []
    else
      var p := list[|list| - 1];
      EtagsOf(list[..|list| - 1], sent) + [Etag(p.partNum, p.partNum in sent)]
  }

  /** The service demands ascending part numbers. */
  ghost predicate Ascending(etags: seq<Etag>) {
    forall j, k :: 0 <= j < k < |etags| ==> etags[j].partNum < etags[k].partNum
  }

  predicate AllFilled(etags: seq<Etag>) {
    forall e :: e in etags ==> e.filled
  }

  /** What the service builds: the parts the request names, in its order. */
  function Built(etags: seq<Etag>, sent: map<int, seq<byte>>): seq<byte> {
    if etags == [] then []
    else
      var n := etags[|etags| - 1].partNum;
      Built(etags[..|etags| - 1], sent) + if n in sent then sent[n] else []
  }

  lemma {:induction false} EtagsMean(list: seq<FilePart>, sent: map<int, seq<byte>>)
    ensures AllFilled(EtagsOf(list, sent)) <==> AllSent(list, sent)
    ensures AllSent(list, sent) ==> Built(EtagsOf(list, sent), sent) == Assembled(list, sent)
  {
    if list != [] {
      var front, p := list[..|list| - 1], list[|list| - 1];
      EtagsMean(front, sent);
      var es, e := EtagsOf(front, sent), Etag(p.partNum, p.partNum in sent);
      assert list == front + [p] && (es + [e])[..|es|] == es;
    }
  }

  lemma {:induction false} EtagsNumbers(list: seq<FilePart>, sent: map<int, seq<byte>>)
    ensures |EtagsOf(list, sent)| == |list|
    ensures forall k :: 0 <= k < |list| ==> EtagsOf(list, sent)[k].partNum == list[k].partNum
  {
    if list != [] {
      EtagsNumbers(list[..|list| - 1], sent);
    }
  }

  lemma EtagsAscend(list: seq<FilePart>, sent: map<int, seq<byte>>)
    requires Numbered(list)
    ensures Ascending(EtagsOf(list, sent))
  {
    EtagsNumbers(list, sent);
  }

  ghost function PlanFiles(plan: seq<Planned>): seq<FilePart> {
    seq(|plan|, i requires 0 <= i < |plan| => plan[i].file)
  }

  /** The parts of a plan, one behind the other, are the file. */
  lemma {:induction false} AssembledIs(plan: seq<Planned>, m: int, sent: map<int, seq<byte>>, target: seq<byte>)
    requires Tiling(plan, m) && EndOf(plan) <= |target| && AllSent(PlanFiles(plan), sent)
    requires forall k :: 0 <= k < |plan| ==> HoldsFile(plan[k].file, sent, target)
    ensures 0 <= EndOf(plan) && Assembled(PlanFiles(plan), sent) == target[..EndOf(plan)]
  {
    if plan != [] {
      var front, q := plan[..|plan| - 1], plan[|plan| - 1].file;
      assert PlanFiles(plan)[..|plan| - 1] == PlanFiles(front);
      assert PlanFiles(plan)[|plan| - 1] == q;
      forall p | p in PlanFiles(front) ensures p.partNum in sent { assert p in PlanFiles(plan); }
      AssembledIs(front, m, sent, target);
      assert HoldsFile(q, sent, target);
      assert target[..q.start + q.size] == target[..q.start] + target[q.start..q.start + q.size];
    }
  }

  /** ... and each part is where it belongs. */
  lemma {:induction false} AssembledAt(plan: seq<Planned>, m: int, sent: map<int, seq<byte>>, k: nat)
    requires Tiling(plan, m) && AllSent(PlanFiles(plan), sent) && k < |plan| && SizesFit(plan, sent)
    ensures var f, all := plan[k].file, Assembled(PlanFiles(plan), sent);
            && 0 <= f.start && f.start + f.size <= |all| == EndOf(plan)
            && all[f.start..f.start + f.size] == sent[f.partNum]
  {
    var n := |plan| - 1;
    var front, q := plan[..n], plan[n].file;
    AssembledFront(plan, sent);
    if n > 0 {
      AssembledAt(front, m, sent, if k < n then k else 0);
    }
    var done := Assembled(PlanFiles(front), sent);
    assert |done| == q.start;
    if k < n { SliceFront(done, sent[q.partNum], plan[k].file.start, plan[k].file.start + plan[k].file.size); }
  }

  lemma {:induction false} AssembledFront(plan: seq<Planned>, sent: map<int, seq<byte>>)
    requires plan != [] && AllSent(PlanFiles(plan), sent)
    ensures var front := plan[..|plan| - 1];
            && AllSent(PlanFiles(front), sent) && plan[|plan| - 1].file.partNum in sent
            && Assembled(PlanFiles(plan), sent) == Assembled(PlanFiles(front),
                                                             sent) + sent[plan[|plan| - 1].file.partNum]
  {
    var front, q := plan[..|plan| - 1], plan[|plan| - 1].file;
    assert PlanFiles(plan)[..|plan| - 1] == PlanFiles(front) && PlanFiles(plan)[|plan| - 1] == q;
    forall p | p in PlanFiles(front) ensures p.partNum in sent { assert p in PlanFiles(plan); }
  }

  lemma SliceFront(a: seq<byte>, b: seq<byte>, lo: int, hi: int)
    requires 0 <= lo <= hi <= |a|
    ensures (a + b)[lo..hi] == a[lo..hi]
  {
  }

  ghost predicate SizesFit(plan: seq<Planned>, sent: map<int, seq<byte>>) {
    forall k :: 0 <= k < |plan| ==> plan[k].file.partNum in sent && |sent[plan[k].file.partNum]| == plan[k].file.size
  }

  /** The accepted bytes of p are those of the target. */
  ghost predicate HoldsFile(p: FilePart, sent: map<int, seq<byte>>, target: seq<byte>) {
    && p.partNum in sent && 0 <= p.start && 0 <= p.size && p.start + p.size <= |target|
    && sent[p.partNum] == target[p.start..p.start + p.size]
  }

  /** p stands for the planned part with its number. */
  ghost predicate StandsFor(p: MpPart, plan: seq<Planned>, kind: Kind) {
    Proper(p) && 1 <= p.partNum <= |plan| && plan[p.partNum - 1].kind == kind
  }

  lemma {:induction false} AreaNums(plan: seq<Planned>, kind: Kind, m: int)
    requires Tiling(plan, m)
    ensures forall p :: p in AreasOf(plan, kind) ==> StandsFor(p, plan, kind)
    ensures 0 <= EndOf(plan) && forall i :: 0 <= i < |plan| ==> plan[i].file.partNum == i + 1
  {
    if plan != [] {
      var front, q := plan[..|plan| - 1], plan[|plan| - 1];
      AreaNums(front, kind, m);
      forall p | p in AreasOf(plan, kind) ensures StandsFor(p, plan, kind) {
        assert p in AreasOf(front, kind) ==> StandsFor(p, front, kind);
      }
    }
  }

  lemma DistinctPush(ps: seq<MpPart>, p: MpPart)
    requires Distinct(ps) && forall q :: q in ps ==> q.partNum != p.partNum
    ensures Distinct(ps + [p])
  {
    assert forall i :: 0 <= i < |ps| ==> ps[i] in ps;
  }

  lemma DistinctConcat(a: seq<MpPart>, c: seq<MpPart>)
    requires Distinct(a) && Distinct(c) && forall p, q :: p in a && q in c ==> p.partNum != q.partNum
    ensures Distinct(a + c)
  {
    assert forall i :: 0 <= i < |a| ==> a[i] in a;
    assert forall i :: 0 <= i < |c| ==> c[i] in c;
  }

  lemma {:induction false} AreasDistinct(plan: seq<Planned>, kind: Kind, m: int)
    requires Tiling(plan, m)
    ensures Distinct(AreasOf(plan, kind))
  {
    if plan != [] {
      var front, q := plan[..|plan| - 1], plan[|plan| - 1];
      AreasDistinct(front, kind, m);
      AreaNums(front, kind, m);
      var ps := AreasOf(front, kind);
      forall p | p in ps ensures p.partNum != q.file.partNum { assert StandsFor(p, front, kind); }
      DistinctPush(ps, MpPart(q.file.start, q.file.size, q.file.partNum));
    }
  }

  /** The parts of a kind, as the upload lists them. */
  lemma {:induction false} KindFiles(plan: seq<Planned>, m: int, q: FilePart)
    requires Tiling(plan, m)
    ensures q in FilesOf(AreasOf(plan, Upload), false) <==> Planned(Upload, q) in plan
    ensures q in FilesOf(AreasOf(plan, Copy), true) <==> Planned(Copy, q) in plan
    ensures q in Keeps(plan) <==> Planned(Keep, q) in plan
  {
    if plan != [] {
      var front, last := plan[..|plan| - 1], plan[|plan| - 1];
      KindFiles(front, m, q);
      FilesPush(AreasOf(front, last.kind), MpPart(last.file.start, last.file.size, last.file.partNum));
      assert plan == front + [last];
    }
  }

  lemma FilesPush(ps: seq<MpPart>, p: MpPart)
    ensures FilesOf(ps + [p], false) == FilesOf(ps, false) + [FileOf(p, false)]
    ensures FilesOf(ps + [p], true) == FilesOf(ps, true) + [FileOf(p, true)]
  {
    assert (ps + [p])[..|ps|] == ps;
  }

  lemma PlanNew(plan: seq<Planned>, m: int)
    requires Tiling(plan, m)
    ensures var all := AreasOf(plan, Upload) + AreasOf(plan, Copy);
            Distinct(all) && NoneListed(Keeps(plan), all) && forall i :: 0 <= i < |all| ==> Proper(all[i])
    ensures Numbered(PlanFiles(plan))
  {
    var up, copy := AreasOf(plan, Upload), AreasOf(plan, Copy);
    AreaNums(plan, Upload, m);
    AreaNums(plan, Copy, m);
    AreasDistinct(plan, Upload, m);
    AreasDistinct(plan, Copy, m);
    forall p, q | p in up && q in copy ensures p.partNum != q.partNum {
      assert StandsFor(p, plan, Upload) && StandsFor(q, plan, Copy);
    }
    DistinctConcat(up, copy);
    NotKept(plan, m, up + copy);
  }

  lemma {:induction false} KeptNum(plan: seq<Planned>, m: int, q: FilePart)
    requires Tiling(plan, m) && q in Keeps(plan)
    ensures 1 <= q.partNum <= |plan| && plan[q.partNum - 1].kind == Keep
  {
    KindFiles(plan, m, q);
    AreaNums(plan, Keep, m);
    var k :| 0 <= k < |plan| && plan[k] == Planned(Keep, q);
  }

  lemma {:induction false} NotKept(plan: seq<Planned>, m: int, all: seq<MpPart>)
    requires Tiling(plan, m)
    requires forall p :: p in all ==> StandsFor(p, plan, Upload) || StandsFor(p, plan, Copy)
    ensures NoneListed(Keeps(plan), all) && forall i :: 0 <= i < |all| ==> Proper(all[i])
  {
    forall i | 0 <= i < |all| ensures !Listed(Keeps(plan), all[i].partNum) && Proper(all[i]) {
      assert all[i] in all;
      if q :| q in Keeps(plan) && q.partNum == all[i].partNum { KeptNum(plan, m, q); }
    }
  }

  /** After the flush has added its uploads and copies the list is the plan, part for part. */
  lemma FinalList(plan: seq<Planned>, m: int)
    requires Tiling(plan, m) && Numbered(Keeps(plan))
    ensures PlanFiles(plan) ==
              InsertedAll(InsertedAll(Keeps(plan), AreasOf(plan, Upload), false), AreasOf(plan, Copy), true)
  {
    var up, copy := AreasOf(plan, Upload), AreasOf(plan, Copy);
    PlanNew(plan, m);
    BothNew(Keeps(plan), up, copy);
    var mid := InsertedAll(Keeps(plan), up, false);
    var list := InsertedAll(mid, copy, true);
    InsertedAllNumbered(Keeps(plan), up, false);
    InsertedAllNumbered(mid, copy, true);
    InsertedAllIn(Keeps(plan), up, false);
    InsertedAllIn(mid, copy, true);
    forall q ensures q in list <==> q in PlanFiles(plan) {
      KindFiles(plan, m, q);
      PlanMember(plan, q);
    }
    SameNumbered(list, PlanFiles(plan));
  }

  lemma PlanMember(plan: seq<Planned>, q: FilePart)
    ensures q in PlanFiles(plan) <==> Planned(Keep, q) in plan || Planned(Upload, q) in plan || Planned(Copy, q) in plan
  {
    if q in PlanFiles(plan) {
      var i :| 0 <= i < |plan| && PlanFiles(plan)[i] == q;
      assert plan[i] == Planned(plan[i].kind, q) && plan[i] in plan;
      match plan[i].kind
      case Keep =>
      case Upload =>
      case Copy =>
    }
    forall kind: Kind | Planned(kind, q) in plan ensures q in PlanFiles(plan) {
      var i :| 0 <= i < |plan| && plan[i] == Planned(kind, q);
      assert PlanFiles(plan)[i] == q;
    }
  }

  /** Two numbered lists with the same parts are the same list. */
  lemma {:induction false} SameNumbered(a: seq<FilePart>, c: seq<FilePart>)
    requires Numbered(a) && Numbered(c) && forall q :: q in a <==> q in c
    ensures a == c
  {
    if a == [] {
      assert forall i :: 0 <= i < |c| ==> c[i] in a;
    } else {
      assert a[|a| - 1] in c;
      var front, back := a[..|a| - 1], c[..|c| - 1];
      SameLast(a, c);
      FrontLess(a);
      FrontLess(c);
      forall q ensures q in front <==> q in back { assert q in a <==> q in c; }
      SameNumbered(front, back);
    }
  }

  lemma SameLast(a: seq<FilePart>, c: seq<FilePart>)
    requires Numbered(a) && Numbered(c) && a != [] && c != [] && forall q :: q in a <==> q in c
    ensures a[|a| - 1] == c[|c| - 1]
  {
    assert c[|c| - 1] in a && a[|a| - 1] in c;
    NumberedLast(a);
    NumberedLast(c);
  }

  lemma FrontLess(a: seq<FilePart>)
    requires Numbered(a) && a != []
    ensures forall q :: q in a[..|a| - 1] <==> q in a && q != a[|a| - 1]
    ensures Numbered(a[..|a| - 1])
  {
    assert a == a[..|a| - 1] + [a[|a| - 1]];
    assert forall q :: q in a[..|a| - 1] ==> q.partNum < a[|a| - 1].partNum;
  }

  class PseudoFdInfo {
    var uploading: bool                 // upload_id is set
    var uploadList: seq<FilePart>
    var instructCount: int
    var lastResult: int
    // workers and service
    var pending: seq<FilePart>          // launched requests that did not end yet, oldest first
    var tokens: nat                     // uploaded_sem: workers that ended and were not waited for
    var sent: map<int, seq<byte>>       // accepted parts of this upload whose request is the newest for its number
    var requests: seq<FilePart>         // every request that was ever launched
    var overtakes: bool                 // some request was launched while one for its number was in flight

    constructor ()
      ensures Valid() && !uploading && uploadList == [] && pending == [] && sent == map[] && lastResult == 0
      ensures requests == [] && !overtakes
    {
      uploading, uploadList, instructCount, lastResult := false, [], 0, 0;
      pending, tokens, sent, requests, overtakes := [], 0, map[], [], false;
    }

    /** The counter equals the workers still to be waited for. */
    ghost predicate Accounted()
      reads this
    {
      instructCount == tokens + |pending|
    }

    ghost predicate Valid()
      reads this
    {
      Accounted() && (!uploading ==> uploadList == [] && instructCount == 0)
    }

    ghost predicate Right(local: seq<byte>, remote: seq<byte>, u: seq<Part>)
      reads this
    {
      RightFor(uploadList, pending, sent, local, remote, u)
    }

    ghost predicate OnTrack(localSize: int, remoteSize: int)
      reads this
    {
      OnTrackFor(uploadList, pending, sent, lastResult, localSize, remoteSize)
    }

    /** Clears the object only: a worker still to be waited for makes the counter wrong. */
    method ResetUploadInfo()
      modifies this`uploading, this`uploadList, this`instructCount, this`lastResult
      ensures !uploading && uploadList == [] && instructCount == 0 && lastResult == 0
      ensures old(Valid()) ==> (Valid() <==> old(instructCount) == 0)
    {
      uploading := false;
      uploadList := [];
      instructCount := 0;
      lastResult := 0;
    }

    /** A new upload; the service knows no part of it yet. */
    method PreMultipartUploadRequest(failure: int) returns (result: int)
      requires Valid() && !uploading
      modifies this`uploading, this`uploadList, this`instructCount, this`lastResult, this`sent
      ensures result == failure && Valid() && uploadList == [] && pending == [] && instructCount == 0
      ensures uploading == (failure == 0)
      ensures result == 0 ==> sent == map[] && lastResult == 0
      ensures result != 0 ==> sent == old(sent) && lastResult == old(lastResult)
    {
      if failure != 0 {
        return failure;
      }
      ResetUploadInfo();
      uploading := true;
      sent := map[];
      return 0;
    }

    method InsertUploadPart(p: MpPart, isCopy: bool) returns (ok: bool)
      modifies this`uploadList
      ensures ok == (uploading && Proper(p))
      ensures uploadList == if ok then Inserted(old(uploadList), FileOf(p, isCopy)) else old(uploadList)
    {
      if !uploading {
        return false;
      }
      if p.start < 0 || p.size <= 0 || p.partNum < 0 {
        return false;
      }
      uploadList := Inserted(uploadList, FileOf(p, isCopy));
      return true;
    }
  
    /** Puts the parts on the list and launches a worker for each. hasFd tells whether the descriptor to
        read from can be opened, takes how many requests the thread pool takes. Of parts that cannot all
        be launched those in front of the first bad one are, and a refused one is on the list. */
    method ParallelMultipartUpload(ps: seq<MpPart>, isCopy: bool, hasFd: bool, takes: nat) returns (ok: bool)
      requires Valid()
      modifies this
      ensures Valid() && uploading == old(uploading) && lastResult == old(lastResult) && tokens == old(tokens)
      ensures ok <==> ps == [] || (uploading && hasFd && Launchable(ps, takes) == |ps|)
      ensures ps == [] || !uploading || !hasFd ==>
                && uploadList == old(uploadList) && pending == old(pending) && sent == old(sent)
                && requests == old(requests)
      ensures ps != [] && uploading && hasFd ==>
                var n, listed := Launchable(ps, takes), Listable(ps, takes);
                && uploadList == InsertedAll(old(uploadList), ps[..listed], isCopy)
                && pending == old(pending) + FilesOf(ps[..n], isCopy) && sent == old(sent) - NumsOf(ps[..listed])
                && requests == old(requests) + FilesOf(ps[..n], isCopy)
      ensures ok ==> requests == old(requests) + FilesOf(ps, isCopy)
      ensures NoneInFlight(old(pending), ps) ==> overtakes == old(overtakes)
      ensures ok ==> uploadList == InsertedAll(old(uploadList), ps, isCopy)
                     && pending == old(pending) + FilesOf(ps, isCopy) && sent == old(sent) - NumsOf(ps)
    {
      assert ps[..|ps|] == ps;
      if ps == [] {
        assert sent - NumsOf(ps) == sent && pending + FilesOf(ps, isCopy) == pending;
        assert requests + FilesOf(ps, isCopy) == requests;
        return true;
      }
      if !hasFd || !uploading {
        return false;
      }
      ok := LaunchParts(ps, isCopy, takes);
    }

    method LaunchParts(ps: seq<MpPart>, isCopy: bool, takes: nat) returns (ok: bool)
      requires Valid() && uploading
      modifies this
      ensures Valid() && uploading && lastResult == old(lastResult) && tokens == old(tokens)
      ensures ok <==> Launchable(ps, takes) == |ps|
      ensures var n, listed := Launchable(ps, takes), Listable(ps, takes);
              && uploadList == InsertedAll(old(uploadList), ps[..listed], isCopy)
              && pending == old(pending) + FilesOf(ps[..n], isCopy) && sent == old(sent) - NumsOf(ps[..listed])
              && requests == old(requests) + FilesOf(ps[..n], isCopy)
      ensures NoneInFlight(old(pending), ps) ==> overtakes == old(overtakes)
    {
      assert sent - NumsOf(ps[..0]) == sent && pending + FilesOf(ps[..0], isCopy) == pending;
      assert requests + FilesOf(ps[..0], isCopy) == requests;
      for i := 0 to |ps|
        invariant Valid() && uploading && lastResult == old(lastResult) && tokens == old(tokens)
        invariant i <= takes && forall j :: 0 <= j < i ==> Proper(ps[j])
        invariant uploadList == InsertedAll(old(uploadList), ps[..i], isCopy)
        invariant pending == old(pending) + FilesOf(ps[..i], isCopy) && sent == old(sent) - NumsOf(ps[..i])
        invariant requests == old(requests) + FilesOf(ps[..i], isCopy)
        invariant NoneInFlight(old(pending), ps) ==> overtakes == old(overtakes)
      {
        LaunchableIs(ps, takes, i);
        ok := LaunchNext(ps, i, isCopy, i < takes, old(uploadList), old(pending), old(sent), old(requests));
        if !ok {
          return false;
        }
      }
      LaunchableIs(ps, takes, |ps|);
      return true;
    }

    /** The next of several parts; list, before and accepted are the state in front of the first one. */
    method LaunchNext(ps: seq<MpPart>, i: nat, isCopy: bool, taken: bool, ghost list: seq<FilePart>,
                      ghost before: seq<FilePart>, ghost accepted: map<int, seq<byte>>, ghost log: seq<FilePart>)
      returns (ok: bool)
      requires Valid() && uploading && i < |ps| && uploadList == InsertedAll(list, ps[..i], isCopy)
      requires pending == before + FilesOf(ps[..i], isCopy) && sent == accepted - NumsOf(ps[..i])
      requires requests == log + FilesOf(ps[..i], isCopy)
      modifies this
      ensures Valid() && uploading && lastResult == old(lastResult) && tokens == old(tokens)
      ensures ok == (Proper(ps[i]) && taken)
      ensures var listed := if Proper(ps[i]) then i + 1 else i;
              uploadList == InsertedAll(list, ps[..listed], isCopy) && sent == accepted - NumsOf(ps[..listed])
      ensures pending == before + FilesOf(ps[..if ok then i + 1 else i], isCopy)
      ensures requests == log + FilesOf(ps[..if ok then i + 1 else i], isCopy)
      ensures NoneInFlight(before, ps) ==> overtakes == old(overtakes)
    {
      LaunchedOne(ps, i, list, before, accepted, isCopy);
      LaunchedOne(ps, i, list, log, accepted, isCopy);
      if NoneInFlight(before, ps) { NextFree(before, ps, isCopy, i); }
      ok := LaunchPart(ps[i], isCopy, taken);
    }

    /** Lists one part, hands it to a worker, if the pool takes it, and counts that worker. */
    method LaunchPart(p: MpPart, isCopy: bool, taken: bool) returns (ok: bool)
      requires Valid() && uploading
      modifies this
      ensures Valid() && uploading && lastResult == old(lastResult) && tokens == old(tokens)
      ensures ok == (Proper(p) && taken)
      ensures if Proper(p)
              then uploadList == Inserted(old(uploadList), FileOf(p, isCopy)) && sent == old(sent) - {p.partNum}
              else uploadList == old(uploadList) && sent == old(sent)
      ensures pending == old(pending) + if ok then [FileOf(p, isCopy)] else []
      ensures requests == old(requests) + if ok then [FileOf(p, isCopy)] else []
      ensures overtakes == (old(overtakes) || (ok && !NonePending(old(pending), p.partNum)))
    {
      ok := InsertUploadPart(p, isCopy);
      if !ok {
        return;
      }
      sent := sent - {p.partNum};
      if !taken {
        return false;
      }
      overtakes := overtakes || !NonePending(pending, p.partNum);
      pending, requests := pending + [FileOf(p, isCopy)], requests + [FileOf(p, isCopy)];
      instructCount := instructCount + 1;
    }

    /** A worker ends and releases the semaphore. */
    method EndWorker(k: nat, o: Outcome)
      requires Valid() && MayFinish(pending, k)
      modifies this`pending, this`tokens, this`sent, this`lastResult
      ensures Valid() && pending == Without(old(pending), k) && tokens == old(tokens) + 1
      ensures sent == SentAfter(old(pending), old(sent), k, o) && lastResult == ResultAfter(old(lastResult), o)
      // for whichever contents of the cache file and the object the request delivered
      ensures forall local, remote, u ::
                old(Right(local, remote, u)) && MayEnd(old(pending), k, o, local, remote, u) ==> Right(local, remote, u)
      ensures forall N, R :: o.Accepted? && old(OnTrack(N, R)) ==> OnTrack(N, R)
    {
      ghost var was, before := pending, sent;
      if o.Accepted? && Delivered(uploadList, pending, sent) { FinishDelivered(uploadList, pending, sent, k, o.data); }
      assert forall r :: r in Without(pending, k) ==> r in pending;
      sent := SentAfter(pending, sent, k, o);
      lastResult := ResultAfter(lastResult, o);
      pending := Without(pending, k);
      tokens := tokens + 1;
      forall local, remote, u | old(Right(local, remote, u)) && MayEnd(was, k, o, local, remote, u)
        ensures Right(local, remote, u)
      {
        FinishFaithful(uploadList, was, before, k, o, local, remote, u);
      }
    }

    /** Some worker that may end, and how; a reliable service accepts every request it can. */
    method NextToEnd(local: seq<byte>, remote: seq<byte>, ghost u: seq<Part>, reliable: bool)
      returns (k: nat, o: Outcome)
      requires pending != []
      ensures MayFinish(pending, k) && MayEnd(pending, k, o, local, remote, u)
      ensures reliable && Reachable(pending, |local|, |remote|) ==> o.Accepted?
    {
      k := *;
      if !MayFinish(pending, k) {
        k := 0;
      }
      var p := pending[k];
      var source := if p.isCopy then remote else local;
      assert p in pending;
      o := *;
      if (reliable || o.Accepted?) && Takes(p, |local|, |remote|) {
        o := Accepted(source[p.start..p.start + p.size]);
      } else if !o.Skipped? {
        o := Failed(-5);
      }
    }

    /** Takes the semaphore once for every launched worker; no worker is left then. */
    method WaitAllThreadsExit(local: seq<byte>, remote: seq<byte>, ghost u: seq<Part>, reliable: bool)
      returns (result: int)
      requires Valid() && Right(local, remote, u)
      modifies this`pending, this`tokens, this`sent, this`lastResult, this`instructCount
      ensures Valid() && Right(local, remote, u) && uploading == old(uploading) && uploadList == old(uploadList)
      ensures instructCount == 0 && tokens == 0 && pending == [] && result == lastResult
      ensures old(instructCount) == 0 ==> sent == old(sent) && lastResult == old(lastResult)
      ensures reliable && old(OnTrack(|local|, |remote|)) ==> OnTrack(|local|, |remote|) && AllSent(uploadList, sent)
    {
      var isLoop := true;
      result := 0;
      if 0 == instructCount {
        result := lastResult;
        isLoop := false;
      }
      while isLoop
        invariant Valid() && Right(local, remote, u) && uploading == old(uploading) && uploadList == old(uploadList)
        invariant isLoop <==> 0 < instructCount
        invariant !isLoop ==> result == lastResult
        invariant old(instructCount) == 0 ==> sent == old(sent) && lastResult == old(lastResult)
        invariant reliable && old(OnTrack(|local|, |remote|)) ==> OnTrack(|local|, |remote|)
        decreases instructCount
      {
        if tokens == 0 {
          AwaitWorker(local, remote, u, reliable);
        }
        tokens := tokens - 1;
        instructCount := instructCount - 1;
        if 0 == instructCount {
          result := lastResult;
          isLoop := false;
        }
      }
      if Delivered(uploadList, pending, sent) { DeliveredSent(uploadList, sent); }
    }

    /** Sleeps until a worker ends. */
    method AwaitWorker(local: seq<byte>, remote: seq<byte>, ghost u: seq<Part>, reliable: bool)
      requires Valid() && Right(local, remote, u) && pending != []
      modifies this`pending, this`tokens, this`sent, this`lastResult
      ensures Valid() && Right(local, remote, u) && uploading == old(uploading) && uploadList == old(uploadList)
      ensures instructCount == old(instructCount) && tokens == old(tokens) + 1
      ensures reliable && old(OnTrack(|local|, |remote|)) ==> OnTrack(|local|, |remote|)
    {
      ghost var fine := OnTrack(|local|, |remote|);
      var k, o := NextToEnd(local, remote, u, reliable);
      EndWorker(k, o);
      assert fine && o.Accepted? ==> OnTrack(|local|, |remote|);
    }

    method CancelAllThreads(local: seq<byte>, remote: seq<byte>, ghost u: seq<Part>)
      requires Valid() && Right(local, remote, u)
      modifies this`pending, this`tokens, this`sent, this`lastResult, this`instructCount
      ensures Valid() && Right(local, remote, u) && uploading == old(uploading) && uploadList == old(uploadList)
      ensures instructCount == 0 && tokens == 0 && pending == []
    {
      if 0 < instructCount {
        lastResult := -125;
        var _ := WaitAllThreadsExit(local, remote, u, false);
      }
    }

    /** Uploads the whole blocks inside the last written area in the background. */
    method UploadBoundaryLastUntreatedArea(u: UntreatedParts, m: int, failure: int) returns (result: int)
      requires Valid() && u.Valid() && 0 < m && Blocks(uploadList, m)
      modifies this, u
      ensures Valid() && u.Valid() && Blocks(uploadList, m)
      ensures forall local, remote :: old(Right(local, remote, u.list)) ==> Right(local, remote, u.list)
      ensures forall N, R :: old(OnTrack(N, R)) && Holding(uploadList, N, m) ==> OnTrack(N, R)
      ensures result == 0 ==> BoundaryMoved(old(u.list), old(u.lastTag), m, old(uploadList), u.list, uploadList)
      ensures result == 0 ==>
                var files := FilesOf(BoundaryRun(old(u.list), old(u.lastTag), m), false);
                pending == old(pending) + files && requests == old(requests) + files
      // without a whole block in the area nothing happens
      ensures if NoneWhole(old(u.list), old(u.lastTag), m)
              then result == 0 && unchanged(this) && unchanged(u)
              else result == (if old(uploading) then 0 else failure) && uploading == (result == 0)
      ensures result != 0 ==> u.list == old(u.list) && uploadList == old(uploadList) && pending == old(pending)
                              && requests == old(requests)
    {
      RunEmpty(u.list, u.lastTag, m);
      var found, start, size := u.GetLastUpdatePart();
      if !found || start < 0 || size <= 0 {
        return 0;
      }
      var alignedStart, alignedSize := AlignedStretch(start, size, m);
      if 0 == alignedSize {
        return 0;
      }
      result := UploadStretch(u, m, failure, start, size, alignedStart, alignedSize, Ceil(start, m),
                              BlockCount(start, size, m));
    }

    method UploadStretch(u: UntreatedParts, m: int, failure: int, start: int, size: int, alignedStart: int,
                         alignedSize: int, ghost c: int, ghost n: int) returns (result: int)
      requires Valid() && u.Valid() && 0 < m && Blocks(uploadList, m)
      requires var k := FindTag(u.list, u.lastTag); k < |u.list| && u.list[k].start == start && u.list[k].size == size
      requires 0 <= c && 0 < n && alignedStart == c * m && alignedSize == n * m && 0 < alignedSize
      requires start <= alignedStart && alignedStart + alignedSize <= start + size
      modifies this, u
      ensures Valid() && u.Valid() && Blocks(uploadList, m) && result == (if old(uploading) then 0 else failure)
      ensures result != 0 ==>
                && !uploading && uploadList == [] == old(uploadList) && pending == old(pending)
                && u.list == old(u.list) && requests == old(requests)
      ensures result == 0 ==>
                && uploading && Relaunched(old(uploadList), c + 1, c + n, m, uploadList)
                && Removes(old(u.list), c * m, n * m, u.list)
                && pending == old(pending) + FilesOf(BlockRun(c + 1, n, m), false)
                && requests == old(requests) + FilesOf(BlockRun(c + 1, n, m), false)
      ensures forall local, remote :: old(Right(local, remote, u.list)) ==> Right(local, remote, u.list)
      ensures forall N, R :: old(OnTrack(N, R)) && Holding(uploadList, N, m) ==> OnTrack(N, R)
    {
      ghost var was, list, before, accepted := u.list, uploadList, pending, sent;
      result := MoveStretch(u, m, failure, start, size, alignedStart, alignedSize, c, n);
      if result == 0 { BoundaryUpload(list, before, accepted, c + 1, n, m, was, uploadList, pending, sent, u.list); }
    }

    method MoveStretch(u: UntreatedParts, m: int, failure: int, start: int, size: int, alignedStart: int,
                       alignedSize: int,
                         ghost c: int, ghost n: int) returns (result: int)
      requires Valid() && u.Valid() && 0 < m && Blocks(uploadList, m)
      requires var k := FindTag(u.list, u.lastTag); k < |u.list| && u.list[k].start == start && u.list[k].size == size
      requires 0 <= c && 0 < n && alignedStart == c * m && alignedSize == n * m && 0 < alignedSize
      requires start <= alignedStart && alignedStart + alignedSize <= start + size
      modifies this, u
      ensures Valid() && u.Valid() && result == (if old(uploading) then 0 else failure)
      ensures result != 0 ==>
                && !uploading && uploadList == [] == old(uploadList) && pending == old(pending)
                && u.list == old(u.list) && requests == old(requests)
      ensures forall N, R :: old(OnTrack(N, R)) && Holding(uploadList, N, m) ==> OnTrack(N, R)
      ensures result != 0 ==> sent == old(sent)
      ensures result == 0 ==>
                var run := BlockRun(c + 1, n, m);
                && uploading && uploadList == InsertedAll(Outside(old(uploadList), c + 1, c + n), run, false)
                && pending == old(pending) + FilesOf(run, false) && requests == old(requests) + FilesOf(run, false)
                && sent == (if old(uploading) then old(sent) else map[]) - NumsOf(run)
                && Removes(old(u.list), c * m, n * m, u.list)
    {
      result := SendBlocks(alignedStart, alignedSize, m, failure, c, n);
      if result == 0 {
        ExcludeStretch(u, start, size, alignedStart, alignedSize);
      }
    }

    /** Takes blocks c + 1 to c + n out of the list and launches them, starting the upload if need be. */
    method SendBlocks(start: int, size: int, m: int, failure: int, ghost c: int, ghost n: int) returns (result: int)
      requires Valid() && 0 < m && Blocks(uploadList, m) && 0 <= c && 0 < n && start == c * m && size == n * m
      modifies this
      ensures Valid() && result == (if old(uploading) then 0 else failure)
      ensures result != 0 ==>
                && !uploading && uploadList == [] == old(uploadList) && pending == old(pending)
                && requests == old(requests)
      ensures forall N, R :: old(OnTrack(N, R)) && Holding(uploadList, N, m) ==> OnTrack(N, R)
      ensures result != 0 ==> sent == old(sent)
      ensures result == 0 ==>
                var run := BlockRun(c + 1, n, m);
                && uploading && uploadList == InsertedAll(Outside(old(uploadList), c + 1, c + n), run, false)
                && pending == old(pending) + FilesOf(run, false) && requests == old(requests) + FilesOf(run, false)
                && sent == (if old(uploading) then old(sent) else map[]) - NumsOf(run)
    {
      ghost var list, before, accepted, last := uploadList, pending, sent, lastResult;
      result := LaunchBlocks(start, size, m, failure, c, n);
      if result == 0 {
        BoundaryOnTrack(list, before, accepted, last, c + 1, n, m, uploadList, pending, sent, lastResult);
      }
    }

    method LaunchBlocks(start: int, size: int, m: int, failure: int, ghost c: int, ghost n: int) returns (result: int)
      requires Valid() && 0 < m && Blocks(uploadList, m) && 0 <= c && 0 < n && start == c * m && size == n * m
      modifies this
      ensures Valid() && result == (if old(uploading) then 0 else failure)
      ensures result != 0 ==>
                && !uploading && uploadList == [] == old(uploadList) && pending == old(pending)
                && requests == old(requests)
      ensures lastResult == if result != 0 || old(uploading) then old(lastResult) else 0
      ensures result != 0 ==> sent == old(sent)
      ensures result == 0 ==>
                var run := BlockRun(c + 1, n, m);
                && uploading && uploadList == InsertedAll(Outside(old(uploadList), c + 1, c + n), run, false)
                && pending == old(pending) + FilesOf(run, false) && requests == old(requests) + FilesOf(run, false)
                && sent == (if old(uploading) then old(sent) else map[]) - NumsOf(run)
    {
      var extracted, up := TakeBlocks(start, size, m, c, n);
      result := 0;
      if !uploading {
        result := PreMultipartUploadRequest(failure);
        if result != 0 {
          return;
        }
      }
      var launched := Launch(up, false);
      result := if extracted && launched then 0 else -5;
    }

    /** Takes the blocks off the list. */
    method TakeBlocks(start: int, size: int, m: int, ghost c: int, ghost n: int) returns (ok: bool, up: seq<MpPart>)
      requires Valid() && 0 < m && Blocks(uploadList, m) && 0 <= c && 0 < n && start == c * m && size == n * m
      modifies this`uploadList
      ensures ok && up == BlockRun(c + 1, n, m) && forall i :: 0 <= i < |up| ==> Proper(up[i])
      ensures up != [] && Valid() && uploadList == Outside(old(uploadList), c + 1, c + n)
    {
      AlignedArea(c, n, m);
      var rest, cancelled;
      ok, rest, up, cancelled := ExtractUploadPartsFromUntreatedArea(uploadList, start, size, m);
      BlockRunIn(c + 1, n, m);
      uploadList := rest;
    }

    /** Divides the whole file; the cancelled blocks leave the upload list at once. */
    method ExtractUploadPartsFromAllArea(untreated: seq<Part>, m: int, fileSize: int, useCopy: bool)
      returns (ok: bool, ls: Lists, wait: bool, ghost plan: seq<Planned>)
      requires Valid() && Separate(untreated) && MIN_MULTIPART_SIZE <= m && 0 <= fileSize
      requires Blocks(uploadList, m) && EndsBy(uploadList, fileSize)
      modifies this`uploadList
      ensures ok && Valid() && (wait <==> ls.cancel != [])
      ensures Divides(ls, plan, untreated, fileSize, m, useCopy) && |plan| == Ceil(fileSize, m)
      ensures uploadList == Keeps(plan) == UntouchedOf(old(uploadList), untreated)
      ensures ls.cancel == TouchedOf(old(uploadList), untreated) && GapsRight(plan, untreated, ls.cancel, m)
      ensures forall N, R :: old(OnTrack(N, R)) ==> OnTrack(N, R)
    {
      TouchedSplit(uploadList, untreated);
      var rest;
      ok, rest, ls, wait, plan :=
        StreamPlans.ExtractUploadPartsFromAllArea(untreated, uploadList, m, fileSize, useCopy);
      uploadList := rest;
      assert old(uploadList) == [] ==> uploadList == [];
    }

    /** Uploads, then copies, then the wait. After a refusal nothing is waited for: the workers launched
        before it are still counted. */
    method ParallelMultipartUploadAll(up: seq<MpPart>, copy: seq<MpPart>, hasFd: bool, takes: nat,
                                      local: seq<byte>, remote: seq<byte>, ghost u: seq<Part>, reliable: bool)
      returns (ok: bool, result: int)
      requires Valid() && Right(local, remote, u) && Distinct(up + copy) && NoneListed(uploadList, up + copy)
      modifies this
      ensures Valid() && uploading == old(uploading)
      ensures ok <==> hasFd && (up == [] == copy || (uploading && BothLaunchable(up, copy, takes)))
      ensures !ok ==>
                && pending == old(pending) + LaunchedOf(up, copy, takes, hasFd && uploading) && tokens == old(tokens)
                && requests == old(requests) + LaunchedOf(up, copy, takes, hasFd && uploading)
      ensures ok ==> requests == (old(requests) + FilesOf(up, false)) + FilesOf(copy, true)
      ensures NoneInFlight(old(pending), up + copy) ==> overtakes == old(overtakes)
      ensures ok ==> result == lastResult && Right(local, remote, u) && instructCount == 0 && pending == []
      ensures ok ==> uploadList == InsertedAll(InsertedAll(old(uploadList), up, false), copy, true)
      ensures ok && reliable && old(OnTrack(|local|, |remote|)) && AreasTaken(up, copy, |local|, |remote|) ==>
                result == 0 && AllSent(uploadList, sent)
    {
      result := 0;
      if !hasFd {
        return false, 0;
      }
      ghost var list, before, accepted := uploadList, pending, sent;
      ok := LaunchLists(up, copy, takes);
      if !ok {
        return;
      }
      LaunchBoth(list, before, accepted, up, copy, local, remote, u);
      if Delivered(list, before, accepted) { DeliverBoth(list, before, accepted, up, copy); }
      FilesTaken(up, false, |local|, |remote|);
      FilesTaken(copy, true, |local|, |remote|);
      result := WaitAllThreadsExit(local, remote, u, reliable);
    }

    method LaunchLists(up: seq<MpPart>, copy: seq<MpPart>, takes: nat) returns (ok: bool)
      requires Valid()
      modifies this
      ensures Valid() && uploading == old(uploading) && lastResult == old(lastResult) && tokens == old(tokens)
      ensures ok <==> up == [] == copy || (uploading && BothLaunchable(up, copy, takes))
      ensures !ok ==>
                && pending == old(pending) + LaunchedOf(up, copy, takes, uploading)
                && requests == old(requests) + LaunchedOf(up, copy, takes, uploading)
      ensures NoneInFlight(old(pending), up + copy) ==> overtakes == old(overtakes)
      ensures ok ==>
                && uploadList == InsertedAll(InsertedAll(old(uploadList), up, false), copy, true)
                && pending == (old(pending) + FilesOf(up, false)) + FilesOf(copy, true)
                && requests == (old(requests) + FilesOf(up, false)) + FilesOf(copy, true)
                && sent == (old(sent) - NumsOf(up)) - NumsOf(copy)
    {
      ghost var before, log := pending, requests;
      LaunchedCases(before, up, copy, takes);
      LaunchedCases(log, up, copy, takes);
      if NoneInFlight(before, up + copy) { BothFree(before, up, copy); }
      ok := ParallelMultipartUpload(up, false, true, takes);
      if !ok {
        return;
      }
      assert |up| == Launchable(up, takes);
      var left := if |up| <= takes then takes - |up| else 0;
      ok := ParallelMultipartUpload(copy, true, true, left);
    }

    /** A launch of which nothing is refused. */
    method Launch(ps: seq<MpPart>, isCopy: bool) returns (ok: bool)
      requires Valid()
      modifies this
      ensures Valid() && uploading == old(uploading) && lastResult == old(lastResult) && tokens == old(tokens)
      ensures ok <==> ps == [] || (uploading && forall i :: 0 <= i < |ps| ==> Proper(ps[i]))
      ensures ok ==>
                && uploadList == InsertedAll(old(uploadList), ps, isCopy) && sent == old(sent) - NumsOf(ps)
                && pending == old(pending) + FilesOf(ps, isCopy) && requests == old(requests) + FilesOf(ps, isCopy)
    {
      AllLaunched(ps);
      ok := ParallelMultipartUpload(ps, isCopy, true, |ps|);
    }

    /** The part of a flush that sends: starts an upload if need be, waits when a cancelled block may
        still be on its way, then sends and copies what the division says and waits for it. launched
        tells whether it came that far, which it does, and to the end, if nothing fails. */
    method SendPlan(ls: Lists, wait: bool, failure: int, local: seq<byte>, remote: seq<byte>, reliable: bool,
                    ghost plan: seq<Planned>, ghost m: int)
      returns (result: int, launched: bool)
      requires Valid() && Right(local, remote, []) && Tiling(plan, m) && uploadList == Keeps(plan)
      requires ls.up == AreasOf(plan, Upload) && ls.copy == AreasOf(plan, Copy)
      modifies this
      ensures Valid() && (launched ==> uploading && instructCount == 0 && pending == [] && Right(local, remote, []))
      ensures launched ==> uploadList == PlanFiles(plan) && result == lastResult
      ensures result == 0 ==> launched
      ensures !launched ==> result != 0 && Right(local, remote, []) && uploadList == old(uploadList)
      ensures requests == old(requests) + if launched then FilesOf(ls.up, false) + FilesOf(ls.copy, true) else []
      // a request never overtakes one for the same number that the wait is for
      ensures wait || NoneInFlight(old(pending), ls.up + ls.copy) ==> overtakes == old(overtakes)
      ensures (reliable && (if old(uploading) then old(OnTrack(|local|, |remote|)) else failure == 0)
               && AreasTaken(ls.up, ls.copy, |local|, |remote|)) ==> result == 0 && AllSent(uploadList, sent)
    {
      result, launched := 0, false;
      if !uploading {
        result := PreMultipartUploadRequest(failure);
        if result != 0 {
          return;
        }
      }
      if wait {
        result := WaitAllThreadsExit(local, remote, [], reliable);
        if result != 0 {
          return;
        }
      }
      PlanNew(plan, m);
      FinalList(plan, m);
      BothLaunched(ls.up, ls.copy);
      Together(requests, FilesOf(ls.up, false), FilesOf(ls.copy, true));
      launched, result :=
        ParallelMultipartUploadAll(ls.up, ls.copy, true, |ls.up| + |ls.copy|, local, remote, [], reliable);
    }

    /** The body of the completion request. Its numbers ascend, it has an empty etag exactly if a
        listed part did not arrive, and what it makes the service build is the listed parts. */
    method GetEtaglist() returns (ok: bool, etags: seq<Etag>)
      ensures ok == (uploading && uploadList != [])
      ensures ok && Numbered(uploadList) ==> Ascending(etags)
      ensures ok ==> (AllFilled(etags) <==> AllSent(uploadList, sent))
      ensures ok && AllSent(uploadList, sent) ==> Built(etags, sent) == Assembled(uploadList, sent)
    {
      if !uploading {
        return false, [];
      }
      etags := [];
      for k := 0 to |uploadList|
        invariant etags == EtagsOf(uploadList[..k], sent)
      {
        assert uploadList[..k + 1][..k] == uploadList[..k];
        etags := etags + [Etag(uploadList[k].partNum, uploadList[k].partNum in sent)];
      }
      assert uploadList[..|uploadList|] == uploadList;
      EtagsMean(uploadList, sent);
      EtagsNumbers(uploadList, sent);
      if Numbered(uploadList) { EtagsAscend(uploadList, sent); }
      ok := etags != [];
    }

    method ClearUploadInfo(isCancel: bool, local: seq<byte>, remote: seq<byte>, ghost u: seq<Part>)
      requires Valid() && Right(local, remote, u)
      modifies this`uploading, this`uploadList, this`instructCount, this`lastResult
      modifies this`pending, this`tokens, this`sent
      ensures !uploading && uploadList == [] && instructCount == 0 && lastResult == 0
      ensures Valid() <==> isCancel || old(instructCount) == 0
      ensures Valid() ==> Right(local, remote, u) && pending == []
    {
      if isCancel {
        CancelAllThreads(local, remote, u);
      }
      ResetUploadInfo();
    }
  }

  /** The number of parts, in order, that are proper and that a pool for takes requests takes. */
  function Launchable(ps: seq<MpPart>, takes: nat): (n: nat)
    ensures n <= |ps| && n <= takes && (forall i :: 0 <= i < n ==> Proper(ps[i]))
    ensures n < |ps| ==> n == takes || !Proper(ps[n])
  {
    if ps == [] || takes == 0 || !Proper(ps[0]) then 0
    else
      var n := Launchable(ps[1..], takes - 1);
      assert forall i :: 1 <= i < n + 1 ==> ps[i] == ps[1..][i - 1];
      assert n + 1 < |ps| ==> ps[n + 1] == ps[1..][n];
      n + 1
  }

  /** A refused part is on the list nevertheless. */
  ghost function Listable(ps: seq<MpPart>, takes: nat): (n: nat)
    ensures n <= |ps|
  {
    var n := Launchable(ps, takes);
    if n < |ps| && Proper(ps[n]) then n + 1 else n
  }

  lemma LaunchableIs(ps: seq<MpPart>, takes: nat, i: nat)
    requires i <= |ps| && i <= takes && forall j :: 0 <= j < i ==> Proper(ps[j])
    ensures i == |ps| || i == takes || !Proper(ps[i]) ==> Launchable(ps, takes) == i
  {
  }

  lemma AllLaunched(ps: seq<MpPart>)
    ensures (forall i :: 0 <= i < |ps| ==> Proper(ps[i])) <==> Launchable(ps, |ps|) == |ps|
  {
  }

  /** The requests a call of ParallelMultipartUploadAll launches before it fails. */
  ghost function LaunchedOf(up: seq<MpPart>, copy: seq<MpPart>, takes: nat, open: bool): seq<FilePart> {
    if !open then []
    else
      var n := Launchable(up, takes);
      FilesOf(up[..n], false) + if n < |up| then [] else FilesOf(copy[..Launchable(copy, takes - n)], true)
  }

  lemma {:induction false} LaunchedCases(pending: seq<FilePart>, up: seq<MpPart>, copy: seq<MpPart>, takes: nat)
    ensures pending + LaunchedOf(up, copy, takes, false) == pending
    ensures var n := Launchable(up, takes);
            pending + LaunchedOf(up, copy, takes, true) ==
              if n < |up| then pending + FilesOf(up[..n], false)
              else (pending + FilesOf(up, false)) + FilesOf(copy[..Launchable(copy, takes - n)], true)
  {
    var n := Launchable(up, takes);
    if n < |up| {
      NothingMore(FilesOf(up[..n], false));
    } else {
      Whole(up, n);
      Together(pending, FilesOf(up, false), FilesOf(copy[..Launchable(copy, takes - n)], true));
    }
    NothingMore(pending);
  }

  lemma NothingMore(a: seq<FilePart>)
    ensures a + [] == a
  {
  }

  lemma Whole(ps: seq<MpPart>, n: nat)
    requires n == |ps|
    ensures ps[..n] == ps
  {
  }

  lemma Together(a: seq<FilePart>, b: seq<FilePart>, c: seq<FilePart>)
    ensures a + (b + c) == (a + b) + c
  {
  }

  ghost predicate BothLaunchable(up: seq<MpPart>, copy: seq<MpPart>, takes: nat) {
    Launchable(up, takes) == |up| && Launchable(copy, takes - |up|) == |copy|
  }

  lemma BothLaunched(up: seq<MpPart>, copy: seq<MpPart>)
    requires forall i :: 0 <= i < |up + copy| ==> Proper((up + copy)[i])
    ensures BothLaunchable(up, copy, |up| + |copy|)
  {
    forall i | 0 <= i < |up| ensures Proper(up[i]) { assert (up + copy)[i] == up[i]; }
    forall i | 0 <= i < |copy| ensures Proper(copy[i]) { assert (up + copy)[|up| + i] == copy[i]; }
  }

  lemma LaunchBoth(list: seq<FilePart>, pending: seq<FilePart>, sent: map<int, seq<byte>>, up: seq<MpPart>,
                   copy: seq<MpPart>, local: seq<byte>, remote: seq<byte>, u: seq<Part>)
    requires Distinct(up + copy) && NoneListed(list, up + copy)
    requires Faithful(list, pending, sent, local, remote, u) && Fresh(pending, sent) && Numbered(list)
    ensures var list', pending', sent' := InsertedAll(InsertedAll(list, up, false), copy, true),
                                          (pending + FilesOf(up, false)) + FilesOf(copy, true),
                                              (sent - NumsOf(up)) - NumsOf(copy);
            Faithful(list', pending', sent', local, remote, u) && Fresh(pending', sent') && Numbered(list')
  {
    BothNew(list, up, copy);
    InsertedAllNumbered(list, up, false);
    InsertedAllNumbered(InsertedAll(list, up, false), copy, true);
    LaunchAll(list, pending, sent, up, false, local, remote, u);
    LaunchAll(InsertedAll(list, up, false), pending + FilesOf(up, false), sent - NumsOf(up), copy, true, local, remote,
              u);
  }

  ghost predicate AreasTaken(up: seq<MpPart>, copy: seq<MpPart>, localSize: int, remoteSize: int) {
    && (forall p :: p in up ==> Takes(FileOf(p, false), localSize, remoteSize))
    && (forall p :: p in copy ==> Takes(FileOf(p, true), localSize, remoteSize))
  }

  lemma {:induction false} FilesTaken(ps: seq<MpPart>, isCopy: bool, localSize: int, remoteSize: int)
    ensures (forall p :: p in ps ==> Takes(FileOf(p, isCopy), localSize, remoteSize)) ==>
              Reachable(FilesOf(ps, isCopy), localSize, remoteSize)
  {
    if ps != [] {
      FilesTaken(ps[..|ps| - 1], isCopy, localSize, remoteSize);
      assert ps == ps[..|ps| - 1] + [ps[|ps| - 1]];
    }
  }

  lemma DeliverBoth(list: seq<FilePart>, pending: seq<FilePart>, sent: map<int, seq<byte>>, up: seq<MpPart>,
                    copy: seq<MpPart>)
    requires Distinct(up + copy) && NoneListed(list, up + copy) && Delivered(list, pending, sent)
    ensures Delivered(InsertedAll(InsertedAll(list, up, false), copy, true),
                      (pending + FilesOf(up, false)) + FilesOf(copy, true), (sent - NumsOf(up)) - NumsOf(copy))
  {
    BothNew(list, up, copy);
    LaunchAllDelivered(list, pending, sent, up, false);
    LaunchAllDelivered(InsertedAll(list, up, false), pending + FilesOf(up, false), sent - NumsOf(up), copy, true);
  }

  lemma BothNew(list: seq<FilePart>, up: seq<MpPart>, copy: seq<MpPart>)
    requires Distinct(up + copy) && NoneListed(list, up + copy)
    ensures Distinct(up) && Distinct(copy) && NoneListed(list, up) && NoneListed(InsertedAll(list, up, false), copy)
  {
    var all := up + copy;
    assert forall i :: 0 <= i < |up| ==> all[i] == up[i];
    assert forall i :: 0 <= i < |copy| ==> all[|up| + i] == copy[i];
    InsertedAllIn(list, up, false);
    forall i | 0 <= i < |copy| ensures !Listed(InsertedAll(list, up, false), copy[i].partNum) {
      assert !Listed(list, all[|up| + i].partNum);
      assert forall j :: 0 <= j < |up| ==> all[j].partNum != all[|up| + i].partNum;
      assert copy[i].partNum !in NumsOf(up);
    }
  }

  lemma LaunchedOne(ps: seq<MpPart>, i: nat, list: seq<FilePart>, pending: seq<FilePart>, sent: map<int, seq<byte>>,
                    isCopy: bool)
    requires i < |ps|
    ensures InsertedAll(list, ps[..i + 1], isCopy) ==
              Inserted(InsertedAll(list, ps[..i], isCopy), FileOf(ps[i], isCopy))
    ensures (pending + FilesOf(ps[..i], isCopy)) + [FileOf(ps[i], isCopy)] == pending + FilesOf(ps[..i + 1], isCopy)
    ensures (sent - NumsOf(ps[..i])) - {ps[i].partNum} == sent - NumsOf(ps[..i + 1])
  {
    assert ps[..i + 1][..i] == ps[..i];
    NumsPush(ps[..i + 1]);
    var nums, all := NumsOf(ps[..i]), NumsOf(ps[..i + 1]);
    assert all == nums + {ps[i].partNum};
    assert (sent - nums) - {ps[i].partNum} == sent - all;
  }
}
