/** Why the object a flush builds is the file: the bytes every request sends, copies or keeps. */
module Flushes {
  import opened Limits
  import opened Pages
  import opened PageLists
  import opened MixPlans
  import opened Untreated
  import opened StreamPlans
  import opened FdInfos
  import opened Contents

  // ---- mixed upload

  /** The bytes of one request: sent from the cache file, or copied from the old object. */
  function PieceOf(p: Page, local: seq<byte>, remote: seq<byte>): seq<byte> {
    var source := if p.st.modified then local else remote;
    if 0 <= p.offset && 0 <= p.bytes && p.offset + p.bytes <= |source| then source[p.offset..p.offset + p.bytes] else []
  }

  function Joined(reqs: seq<Page>, local: seq<byte>, remote: seq<byte>): seq<byte> {
    if reqs == [] then []
    else Joined(reqs[..|reqs| - 1], local, remote) + PieceOf(reqs[|reqs| - 1], local, remote)
  }

  /** Byte b arrives right: from the cache file where reqs uploads it, else from the old object. */
  ghost predicate Supplied(reqs: seq<Page>, local: seq<byte>, remote: seq<byte>, v: seq<byte>, b: int)
    requires 0 <= b < |v| && |local| == |v|
  {
    if At(reqs, GAP, b).modified then local[b] == v[b] else b < |remote| && remote[b] == v[b]
  }

  lemma {:induction false} JoinedIs(reqs: seq<Page>, local: seq<byte>, remote: seq<byte>, v: seq<byte>)
    requires Chain(reqs) && Positive(reqs) && SizeOf(reqs) <= |v| == |local|
    requires forall b :: 0 <= b < SizeOf(reqs) ==> Supplied(reqs, local, remote, v, b)
    ensures 0 <= SizeOf(reqs) && Joined(reqs, local, remote) == v[..SizeOf(reqs)]
  {
    if reqs != [] {
      var front, p := reqs[..|reqs| - 1], reqs[|reqs| - 1];
      ChainFront(reqs);
      AtPush(front, p, GAP);
      assert front + [p] == reqs;
      forall b | 0 <= b < SizeOf(front) ensures Supplied(front, local, remote, v, b) {
        assert Supplied(reqs, local, remote, v, b);
      }
      JoinedIs(front, local, remote, v);
      PieceIs(reqs, p, local, remote, v);
      assert v[..p.offset + p.bytes] == v[..p.offset] + v[p.offset..p.offset + p.bytes];
    }
  }

  lemma PieceIs(reqs: seq<Page>, p: Page, local: seq<byte>, remote: seq<byte>, v: seq<byte>)
    requires 0 <= p.offset && 0 < p.bytes && p.offset + p.bytes <= |v| == |local|
    requires forall b :: p.Covers(b) ==> At(reqs, GAP, b) == p.st
    requires forall b :: 0 <= b < p.offset + p.bytes ==> Supplied(reqs, local, remote, v, b)
    ensures PieceOf(p, local, remote) == v[p.offset..p.offset + p.bytes]
  {
    var last := p.offset + p.bytes - 1;
    assert p.Covers(last) && Supplied(reqs, local, remote, v, last);
    var source := if p.st.modified then local else remote;
    forall b | p.offset <= b < p.offset + p.bytes ensures source[b] == v[b] {
      assert p.Covers(b) && Supplied(reqs, local, remote, v, b);
    }
  }

  /** A sound plan builds the file out of what is cached once its fetch list is loaded and the old
      object. */
  lemma MixObject(pages: seq<Page>, dl: seq<Page>, up: seq<Page>, reqs: seq<Page>, local: seq<byte>, remote: seq<byte>,
                  org: int, st': seq<Status>, local': seq<byte>)
    requires WellFormed(pages) && 0 <= SizeOf(pages) && Sound(Flat(pages), local, remote, org)
             && |local'| == |local| == |st'|
    requires MixSound(pages, dl, up) && SameStatuses(up, reqs)
    requires Chain(reqs) && Positive(reqs) && SizeOf(reqs) == |local|
    requires Loads(Flat(pages), true, st') && View(st', local', remote, org) == View(Flat(pages), local, remote, org)
    requires forall b :: 0 <= b < |st'| && Hit(dl, b) ==> st'[b] != GAP
    ensures Joined(reqs, local', remote) == View(Flat(pages), local, remote, org)
  {
    var st, v := Flat(pages), View(Flat(pages), local, remote, org);
    forall b | 0 <= b < |v| ensures Supplied(reqs, local', remote, v, b) {
      assert st[b] == At(pages, GAP, b) && At(reqs, GAP, b) == At(up, GAP, b);
      if At(up, GAP, b).modified {
        assert Needed(pages, up, b) || st[b].modified;
        assert st'[b] != GAP;
        assert View(st', local', remote, org)[b] == local'[b];
      }
    }
    JoinedIs(reqs, local', remote, v);
    assert v[..|v|] == v;
  }

  // ---- stream upload

  /** Every modified byte is untreated or in an uploaded block, and every such byte is in the cache
      file. */
  ghost predicate Tracked(st: seq<Status>, org: int, u: seq<Part>, list: seq<FilePart>) {
    && (forall i :: 0 <= i < |st| && st[i].modified ==> Holds(u, i) || InFiles(list, i))
    && (forall i :: 0 <= i < |st| && (Holds(u, i) || InFiles(list, i)) ==> !Remote(st, org, i))
    && (forall i :: Holds(u, i) ==> 0 <= i < |st|) && EndsBy(list, |st|)
  }

  lemma {:induction false} PlannedIn(plan: seq<Planned>, k: nat, b: int)
    requires k < |plan| && plan[k].file.Covers(b)
    ensures plan[k].kind == Keep ==> InFiles(Keeps(plan), b)
    ensures plan[k].kind != Keep ==> InMp(AreasOf(plan, plan[k].kind), b)
  {
    var front, q := plan[..|plan| - 1], plan[|plan| - 1];
    var p := MpPart(q.file.start, q.file.size, q.file.partNum);
    if k < |front| {
      PlannedIn(front, k, b);
    }
    InMpPush(AreasOf(front, plan[k].kind), p);
    InFilesPush(Keeps(front), q.file);
  }

  /** Every planned byte can be had where the plan takes it from: what is kept or sent is in the cache
      file, what is copied is in the old object. */
  lemma PlanByte(ls: Lists, plan: seq<Planned>, u: seq<Part>, list: seq<FilePart>, m: int, useCopy: bool,
                 st: seq<Status>, local: seq<byte>, remote: seq<byte>, org: int, k: nat, b: int)
    requires Divides(ls, plan, u, |st|, m, useCopy) && Keeps(plan) == UntouchedOf(list, u)
             && ls.cancel == TouchedOf(list, u)
    requires Tracked(st, org, u, list) && Sound(st, local, remote, org)
    requires forall i :: 0 <= i < |st| && InMp(ls.down, i) ==> st[i] != GAP
    requires k < |plan| && plan[k].file.Covers(b) && 0 <= b < |st|
    ensures plan[k].kind != Copy ==> View(st, local, remote, org)[b] == local[b]
    ensures plan[k].kind == Copy ==> b < |remote| && View(st, local, remote, org)[b] == remote[b]
    ensures plan[k].kind == Keep ==> !Holds(u, b)
  {
    PlannedIn(plan, k, b);
    DivisionMeaning(ls, plan, u, list, |st|, m, useCopy, b);
    if plan[k].kind == Copy {
      assert !st[b].modified;
    } else {
      assert Holds(u, b) || InFiles(list, b) || st[b] != GAP;
      assert !Remote(st, org, b);
    }
  }

  /** The list behind the division is right even if nothing counts as untreated. */
  lemma KeptRight(list: seq<FilePart>, pending: seq<FilePart>, sent: map<int, seq<byte>>, local: seq<byte>,
                  remote: seq<byte>, u: seq<Part>)
    requires RightFor(list, pending, sent, local, remote, u)
    ensures RightFor(UntouchedOf(list, u), pending, sent, local, remote, [])
  {
    UntouchedNumbered(list, u);
    TouchedSplit(list, u);
    forall p | p in UntouchedOf(list, u) ensures Awaits(pending, p) || Arrived(p, pending, sent, local, remote, []) {
      if Arrived(p, pending, sent, local, remote, u) && p.partNum in sent {
        var data := sent[p.partNum];
        forall b | p.start <= b < p.start + p.size && !Holds([], b)
          ensures data[b - p.start] == (if p.isCopy then remote else local)[b]
        {
          assert p.Covers(b);
          assert !Holds(u, b);
        }
      }
    }
  }

  /** When all parts were accepted, the object is the file. */
  lemma StreamObject(ls: Lists, plan: seq<Planned>, u: seq<Part>, list: seq<FilePart>, m: int, useCopy: bool,
                     st: seq<Status>, local: seq<byte>, remote: seq<byte>, org: int, sent: map<int, seq<byte>>)
    requires Divides(ls, plan, u, |st|, m, useCopy) && Keeps(plan) == UntouchedOf(list, u)
             && ls.cancel == TouchedOf(list, u)
    requires Tracked(st, org, u, list) && Sound(st, local, remote, org) && MIN_MULTIPART_SIZE <= m
    requires forall i :: 0 <= i < |st| && InMp(ls.down, i) ==> st[i] != GAP
    requires RightFor(PlanFiles(plan), [], sent, local, remote, []) && AllSent(PlanFiles(plan), sent)
    ensures Assembled(PlanFiles(plan), sent) == View(st, local, remote, org)
  {
    var v := View(st, local, remote, org);
    forall k | 0 <= k < |plan| ensures HoldsFile(plan[k].file, sent, v) {
      PlannedSource(ls, plan, u, list, m, useCopy, st, local, remote, org, k);
      SentRight(plan, sent, local, remote, k);
      HoldsFrom(plan[k].file, sent, local, remote, v);
    }
    AssembledIs(plan, m, sent, v);
    assert v[..|v|] == v;
  }

  /** The bytes of p can be had where the plan takes them from. */
  ghost predicate SourceIs(p: FilePart, local: seq<byte>, remote: seq<byte>, v: seq<byte>)
    requires |local| == |v|
  {
    forall b :: p.Covers(b) ==> SourceAt(p, local, remote, v, b)
  }

  ghost predicate SourceAt(p: FilePart, local: seq<byte>, remote: seq<byte>, v: seq<byte>, b: int)
    requires |local| == |v|
  {
    0 <= b < |v| && if p.isCopy then b < |remote| && v[b] == remote[b] else v[b] == local[b]
  }

  lemma PlannedSource(ls: Lists, plan: seq<Planned>, u: seq<Part>, list: seq<FilePart>, m: int, useCopy: bool,
                      st: seq<Status>, local: seq<byte>, remote: seq<byte>, org: int, k: nat)
    requires Divides(ls, plan, u, |st|, m, useCopy) && Keeps(plan) == UntouchedOf(list, u)
             && ls.cancel == TouchedOf(list, u)
    requires Tracked(st, org, u, list) && Sound(st, local, remote, org) && k < |plan|
    requires forall i :: 0 <= i < |st| && InMp(ls.down, i) ==> st[i] != GAP
    ensures SourceIs(plan[k].file, local, remote, View(st, local, remote, org))
    ensures 0 <= plan[k].file.start && 0 < plan[k].file.size && plan[k].file.start + plan[k].file.size <= |st|
  {
    var v, p := View(st, local, remote, org), plan[k].file;
    PlanFits(plan, m, k);
    forall b | p.Covers(b) ensures SourceAt(p, local, remote, v, b) {
      PlanByte(ls, plan, u, list, m, useCopy, st, local, remote, org, k, b);
    }
  }

  lemma HoldsFrom(p: FilePart, sent: map<int, seq<byte>>, local: seq<byte>, remote: seq<byte>, v: seq<byte>)
    requires p.partNum in sent && Delivers(sent[p.partNum], p, local, remote, [])
    requires |local| == |v| && 0 <= p.start && p.start + p.size <= |v| && SourceIs(p, local, remote, v)
    ensures HoldsFile(p, sent, v)
  {
    var data := sent[p.partNum];
    forall b | p.start <= b < p.start + p.size ensures data[b - p.start] == v[b] {
      assert !Holds([], b) && p.Covers(b);
      assert SourceAt(p, local, remote, v, b);
    }
    assert data == v[p.start..p.start + p.size];
  }

  lemma SentRight(plan: seq<Planned>, sent: map<int, seq<byte>>, local: seq<byte>, remote: seq<byte>, k: nat)
    requires RightFor(PlanFiles(plan), [], sent, local, remote, []) && AllSent(PlanFiles(plan), sent) && k < |plan|
    ensures plan[k].file.partNum in sent && Delivers(sent[plan[k].file.partNum], plan[k].file, local, remote, [])
  {
    assert PlanFiles(plan)[k] == plan[k].file;
    assert plan[k].file in PlanFiles(plan) && !Awaits([], plan[k].file);
  }

  lemma {:induction false} PlanFits(plan: seq<Planned>, m: int, k: nat)
    requires Tiling(plan, m) && k < |plan|
    ensures 0 <= plan[k].file.start && 0 < plan[k].file.size && plan[k].file.start + plan[k].file.size <= EndOf(plan)
    ensures plan[k].file.isCopy <==> plan[k].kind == Copy
  {
    AreasEnd(plan, Copy, m);
    AreasEnd(plan[..|plan| - 1], Copy, m);
    if k < |plan| - 1 {
      PlanFits(plan[..|plan| - 1], m, k);
    }
  }

  // ---- what a division builds, whatever the state of the bookkeeping

  /** What was sent or copied is as it should be; what was kept is whatever was accepted once. */
  ghost predicate SentAnew(plan: seq<Planned>, sent: map<int, seq<byte>>, local: seq<byte>, remote: seq<byte>) {
    forall k :: 0 <= k < |plan| && plan[k].kind != Keep ==>
      plan[k].file.partNum in sent && Delivers(sent[plan[k].file.partNum], plan[k].file, local, remote, [])
  }

  /** The object a flush builds is the content exactly if every copied byte reads the same from the old
      object and no kept block is stale. */
  lemma ObjectIff(ls: Lists, plan: seq<Planned>, u: seq<Part>, m: int, useCopy: bool, st: seq<Status>,
                  local: seq<byte>, remote: seq<byte>, org: int, sent: map<int, seq<byte>>)
    requires Divides(ls, plan, u, |st|, m, useCopy) && |st| == |local|
    requires forall b :: 0 <= b < |st| && InMp(ls.up, b) ==> !Remote(st, org, b)
    requires AllSent(PlanFiles(plan), sent) && SizesFit(plan, sent) && SentAnew(plan, sent, local, remote)
    ensures var v := View(st, local, remote, org);
            Assembled(PlanFiles(plan), sent) == v <==>
              && (forall b :: InMp(ls.copy, b) ==> 0 <= b < |v| && b < |remote| && v[b] == remote[b])
              && (forall p :: p in Keeps(plan) ==> HoldsFile(p, sent, v))
  {
    var v := View(st, local, remote, org);
    AssembledParts(plan, m, sent, v);
    if Assembled(PlanFiles(plan), sent) == v {
      forall b | InMp(ls.copy, b) ensures 0 <= b < |v| && b < |remote| && v[b] == remote[b] {
        var k := PlannedAt(plan, Copy, b);
        PlanFits(plan, m, k);
        HeldByte(plan[k].file, sent, local, remote, v, b);
      }
      forall p | p in Keeps(plan) ensures HoldsFile(p, sent, v) {
        var k := KeptAt(plan, p);
      }
    } else {
      var k: nat :| k < |plan| && !HoldsFile(plan[k].file, sent, v);
      PlanFits(plan, m, k);
      NotHeld(ls, plan, k, st, local, remote, org, sent);
    }
  }

  /** A part that does not hold the content's bytes is a copy that differs from it, or a stale block. */
  lemma NotHeld(ls: Lists, plan: seq<Planned>, k: nat, st: seq<Status>, local: seq<byte>, remote: seq<byte>, org: int,
                sent: map<int, seq<byte>>)
    requires k < |plan| && |st| == |local| && SentAnew(plan, sent, local, remote)
    requires ls.up == AreasOf(plan, Upload) && ls.copy == AreasOf(plan, Copy)
    requires forall b :: 0 <= b < |st| && InMp(ls.up, b) ==> !Remote(st, org, b)
    requires var p := plan[k].file; 0 <= p.start && 0 < p.size && p.start + p.size <= |st|
    requires plan[k].file.isCopy <==> plan[k].kind == Copy
    requires !HoldsFile(plan[k].file, sent, View(st, local, remote, org))
    ensures var v := View(st, local, remote, org);
            || (plan[k].kind == Keep && plan[k].file in Keeps(plan))
            || exists b :: InMp(ls.copy, b) && 0 <= b < |v| && !(b < |remote| && v[b] == remote[b])
  {
    var v, p := View(st, local, remote, org), plan[k].file;
    if plan[k].kind == Keep {
      KeptMember(plan, k);
    } else {
      forall b | p.Covers(b)
        ensures plan[k].kind == Upload ==> v[b] == local[b]
        ensures plan[k].kind == Copy ==> InMp(ls.copy, b)
      {
        PlannedIn(plan, k, b);
      }
      if SourceIs(p, local, remote, v) {
        HoldsFrom(p, sent, local, remote, v);
        assert false;
      }
      var b :| p.Covers(b) && !SourceAt(p, local, remote, v, b);
      assert plan[k].kind == Copy;
    }
  }

  lemma AssembledParts(plan: seq<Planned>, m: int, sent: map<int, seq<byte>>, v: seq<byte>)
    requires Tiling(plan, m) && EndOf(plan) == |v| && AllSent(PlanFiles(plan), sent) && SizesFit(plan, sent)
    ensures Assembled(PlanFiles(plan), sent) == v <==> forall k :: 0 <= k < |plan| ==> HoldsFile(plan[k].file, sent, v)
  {
    if Assembled(PlanFiles(plan), sent) == v {
      forall k | 0 <= k < |plan| ensures HoldsFile(plan[k].file, sent, v) {
        AssembledAt(plan, m, sent, k);
        PlanFits(plan, m, k);
      }
    }
    if forall k :: 0 <= k < |plan| ==> HoldsFile(plan[k].file, sent, v) {
      AssembledIs(plan, m, sent, v);
      assert v[..|v|] == v;
    }
  }

  lemma HeldByte(p: FilePart, sent: map<int, seq<byte>>, local: seq<byte>, remote: seq<byte>, v: seq<byte>, b: int)
    requires p.isCopy && p.Covers(b) && HoldsFile(p, sent, v) && Delivers(sent[p.partNum], p, local, remote, [])
    ensures 0 <= b < |v| && b < |remote| && v[b] == remote[b]
  {
    assert !Holds([], b);
    assert sent[p.partNum][b - p.start] == v[p.start..p.start + p.size][b - p.start];
  }

  lemma {:induction false} PlannedAt(plan: seq<Planned>, kind: Kind, b: int) returns (k: nat)
    requires InMp(AreasOf(plan, kind), b)
    ensures k < |plan| && plan[k].kind == kind && plan[k].file.Covers(b)
  {
    var front, q := plan[..|plan| - 1], plan[|plan| - 1];
    InMpPush(AreasOf(front, kind), MpPart(q.file.start, q.file.size, q.file.partNum));
    if q.kind == kind && q.file.Covers(b) {
      k := |plan| - 1;
    } else {
      k := PlannedAt(front, kind, b);
    }
  }

  lemma {:induction false} KeptAt(plan: seq<Planned>, p: FilePart) returns (k: nat)
    requires p in Keeps(plan)
    ensures k < |plan| && plan[k].kind == Keep && plan[k].file == p
  {
    var front, q := plan[..|plan| - 1], plan[|plan| - 1];
    if q.kind == Keep && q.file == p {
      k := |plan| - 1;
    } else {
      k := KeptAt(front, p);
    }
  }

  lemma {:induction false} KeptMember(plan: seq<Planned>, k: nat)
    requires k < |plan| && plan[k].kind == Keep
    ensures plan[k].file in Keeps(plan)
  {
    if k < |plan| - 1 {
      KeptMember(plan[..|plan| - 1], k);
    }
  }

  // ---- where the bookkeeping lets go of bytes

  /** p has a byte of u whose accepted value is not that of the source. */
  ghost predicate Stale(p: FilePart, sent: map<int, seq<byte>>, local: seq<byte>, remote: seq<byte>, u: seq<Part>) {
    && p.partNum in sent && 0 <= p.start && p.start + p.size <= |if p.isCopy then remote else local|
       && |sent[p.partNum]| == p.size
    && exists b :: p.Covers(b) && Holds(u, b) && sent[p.partNum][b - p.start] != (if p.isCopy then remote else local)[b]
  }

  /** Sending a small file whole empties the untreated list and leaves the upload list. The upload stays
      right exactly if no listed part is stale. */
  lemma ClearedRight(list: seq<FilePart>, pending: seq<FilePart>, sent: map<int, seq<byte>>, local: seq<byte>,
                     remote: seq<byte>, u: seq<Part>)
    requires RightFor(list, pending, sent, local, remote, u)
    ensures RightFor(list, pending, sent, local, remote, []) <==>
              forall p :: p in list ==> !Stale(p, sent, local, remote, u)
  {
    if RightFor(list, pending, sent, local, remote, []) {
      forall p | p in list ensures !Stale(p, sent, local, remote, u) {
        if p.partNum in sent {
          NotAwaited(pending, sent, p);
          NotStale(p, sent, local, remote, u);
        }
      }
    } else {
      FindStale(list, pending, sent, local, remote, u);
    }
  }

  lemma NotAwaited(pending: seq<FilePart>, sent: map<int, seq<byte>>, p: FilePart)
    requires FdInfos.Fresh(pending, sent) && p.partNum in sent
    ensures !Awaits(pending, p)
  {
  }

  lemma NotStale(p: FilePart, sent: map<int, seq<byte>>, local: seq<byte>, remote: seq<byte>, u: seq<Part>)
    requires p.partNum in sent && Delivers(sent[p.partNum], p, local, remote, [])
    ensures !Stale(p, sent, local, remote, u)
  {
    var data, source := sent[p.partNum], if p.isCopy then remote else local;
    forall b | p.start <= b < p.start + p.size ensures data[b - p.start] == source[b] {
      assert !Holds([], b);
    }
  }

  lemma FindStale(list: seq<FilePart>, pending: seq<FilePart>, sent: map<int, seq<byte>>, local: seq<byte>,
                  remote: seq<byte>, u: seq<Part>)
    requires RightFor(list, pending, sent, local, remote, u) && !RightFor(list, pending, sent, local, remote, [])
    ensures exists p :: p in list && Stale(p, sent, local, remote, u)
  {
    var p :| p in list && !(Awaits(pending, p) || Arrived(p, pending, sent, local, remote, []));
    var data := sent[p.partNum];
    var b :| p.start <= b < p.start + p.size && !Holds([], b)
        && data[b - p.start] != (if p.isCopy then remote else local)[b];
    assert p.Covers(b);
  }

  /** local' differs from local in untreated bytes at most. */
  ghost predicate Rewritten(local: seq<byte>, local': seq<byte>, u: seq<Part>) {
    |local'| == |local| && forall b :: 0 <= b < |local| && !Holds(u, b) ==> local'[b] == local[b]
  }

  /** What the caller can check: with the blocks all accepted, the upload stays right for every value
      the untreated bytes may have exactly if no block has one. */
  lemma ClearedRightIff(list: seq<FilePart>, sent: map<int, seq<byte>>, local: seq<byte>, remote: seq<byte>,
                        u: seq<Part>, m: int)
    requires Blocks(list, m) && 0 < m && AllSent(list, sent) && RightFor(list, [], sent, local, remote, u)
    ensures (forall local' :: Rewritten(local, local', u) ==> RightFor(list, [], sent, local', remote, [])) <==>
              TouchedOf(list, u) == []
  {
    if TouchedOf(list, u) == [] {
      forall local' | Rewritten(local, local', u) ensures RightFor(list, [], sent, local', remote, []) {
        RewrittenRight(list, [], sent, local, remote, u, local');
        UntouchedStays(list, [], sent, local', remote, u);
      }
    } else {
      var local' := TouchedBreaks(list, sent, local, remote, u, m);
    }
  }

  /** A value of an untreated byte that the accepted block does not have. */
  lemma TouchedBreaks(list: seq<FilePart>, sent: map<int, seq<byte>>, local: seq<byte>, remote: seq<byte>,
                      u: seq<Part>, m: int) returns (local': seq<byte>)
    requires Blocks(list, m) && 0 < m && AllSent(list, sent) && RightFor(list, [], sent, local, remote, u)
    requires TouchedOf(list, u) != []
    ensures Rewritten(local, local', u) && !RightFor(list, [], sent, local', remote, [])
  {
    TouchedSplit(list, u);
    var p := TouchedOf(list, u)[0];
    assert p in list && !Awaits([], p);
    var b :| p.Covers(b) && Holds(u, b);
    MulLe(0, p.partNum - 1, m);
    var other: byte := if sent[p.partNum][b - p.start] == 0 then 1 else 0;
    local' := local[b := other];
    assert local'[b] != sent[p.partNum][b - p.start] && !Holds([], b);
    assert !Delivers(sent[p.partNum], p, local', remote, []);
  }

  /** One direction holds with requests in flight and for copied parts too. */
  lemma UntouchedStays(list: seq<FilePart>, pending: seq<FilePart>, sent: map<int, seq<byte>>, local: seq<byte>,
                       remote: seq<byte>, u: seq<Part>)
    requires RightFor(list, pending, sent, local, remote, u) && TouchedOf(list, u) == []
    ensures RightFor(list, pending, sent, local, remote, [])
  {
    KeptRight(list, pending, sent, local, remote, u);
    AllUntouched(list, u);
  }

  lemma {:induction false} AllUntouched(list: seq<FilePart>, u: seq<Part>)
    requires TouchedOf(list, u) == []
    ensures UntouchedOf(list, u) == list
  {
    if list != [] {
      AllUntouched(list[..|list| - 1], u);
    }
  }

  lemma RewrittenRight(list: seq<FilePart>, pending: seq<FilePart>, sent: map<int, seq<byte>>, local: seq<byte>,
                       remote: seq<byte>, u: seq<Part>, local': seq<byte>)
    requires RightFor(list, pending, sent, local, remote, u) && Rewritten(local, local', u)
    ensures RightFor(list, pending, sent, local', remote, u)
  {
    forall p | p in list ensures Awaits(pending, p) || Arrived(p, pending, sent, local', remote, u) {
      if Arrived(p, pending, sent, local, remote, u) && p.partNum in sent {
        var data := sent[p.partNum];
        forall b | p.start <= b < p.start + p.size && !Holds(u, b)
          ensures data[b - p.start] == (if p.isCopy then remote else local')[b]
        {
          assert !Holds(u, b);
        }
      }
    }
  }

  /** Such a block exists: one block was uploaded, then its first byte was overwritten. */
  lemma StaleBlock(m: nat, remote: seq<byte>)
    requires 0 < m
    ensures var list := [FilePart(false, 0, m, false, 1)];
            var sent, local := map[1 := Fitted([], m)], Patched(Fitted([], m), 0, [1]);
            RightFor(list, [], sent, local, remote, [Part(0, 1, 1)]) && !RightFor(list, [], sent, local, remote, [])
  {
    OldBlock(m, Fitted([], m), Patched(Fitted([], m), 0, [1]), remote);
  }

  lemma OldBlock(m: nat, data: seq<byte>, local: seq<byte>, remote: seq<byte>)
    requires 0 < m == |data| == |local| && data[0] != local[0] && data[1..] == local[1..]
    ensures var list := [FilePart(false, 0, m, false, 1)];
            RightFor(list, [], map[1 := data], local, remote, [Part(0, 1, 1)])
                && !RightFor(list, [], map[1 := data], local, remote, [])
  {
    var p := FilePart(false, 0, m, false, 1);
    var u := [Part(0, 1, 1)];
    assert u[0].Covers(0);
    forall b | 0 <= b < m && !Holds(u, b) ensures data[b] == local[b] {
      assert b != 0;
      assert data[1..][b - 1] == local[1..][b - 1];
    }
    assert !Holds([], 0) && !Awaits([], p) && p in [p];
    assert Delivers(data, p, local, remote, u) && !Delivers(data, p, local, remote, []);
    assert Arrived(p, [], map[1 := data], local, remote, u) && !Arrived(p, [], map[1 := data], local, remote, []);
  }

  /** A failed flush leaves neither untreated bytes nor uploaded blocks. The next flush, if it may
      copy, then copies everything and rebuilds the old object, whatever was written. */
  lemma RetryCopies(ls: Lists, plan: seq<Planned>, fileSize: int, m: int, sent: map<int, seq<byte>>, local: seq<byte>,
                    remote: seq<byte>)
    requires Divides(ls, plan, [], fileSize, m, true) && Keeps(plan) == [] && MIN_MULTIPART_SIZE <= m && 0 < fileSize
    requires RightFor(PlanFiles(plan), [], sent, local, remote, []) && AllSent(PlanFiles(plan), sent)
    ensures ls.up == [] && fileSize <= |remote| && Assembled(PlanFiles(plan), sent) == remote[..fileSize]
  {
    NothingWritten(ls.up);
    forall k | 0 <= k < |plan| ensures HoldsFile(plan[k].file, sent, remote) {
      PlanFits(plan, m, k);
      PlannedIn(plan, k, plan[k].file.start);
      SentRight(plan, sent, local, remote, k);
      CopyHolds(plan[k].file, sent, local, remote);
    }
    assert HoldsFile(plan[|plan| - 1].file, sent, remote);
    AssembledIs(plan, m, sent, remote);
  }

  /** When such a retry is right: the object it builds is the content exactly if it may not copy, or
      the content is what the object was. */
  lemma RetryIff(ls: Lists, plan: seq<Planned>, st: seq<Status>, local: seq<byte>, remote: seq<byte>, org: int, m: int,
                 useCopy: bool, sent: map<int, seq<byte>>)
    requires Divides(ls, plan, [], |st|, m, useCopy) && Keeps(plan) == [] && ls.cancel == []
    requires MIN_MULTIPART_SIZE <= m && 0 < |st| == |local|
    requires forall i :: 0 <= i < |st| && InMp(ls.down, i) ==> st[i] != GAP
    requires RightFor(PlanFiles(plan), [], sent, local, remote, []) && AllSent(PlanFiles(plan), sent)
    ensures Assembled(PlanFiles(plan), sent) == View(st, local, remote, org) <==>
              !useCopy || (|st| <= |remote| && View(st, local, remote, org) == remote[..|st|])
  {
    if useCopy {
      RetryCopies(ls, plan, |st|, m, sent, local, remote);
    } else {
      var v := View(st, local, remote, org);
      forall k | 0 <= k < |plan| ensures HoldsFile(plan[k].file, sent, v) {
        RetrySource(ls, plan, st, local, remote, org, m, k);
        SentRight(plan, sent, local, remote, k);
        HoldsFrom(plan[k].file, sent, local, remote, v);
      }
      AssembledIs(plan, m, sent, v);
      assert v[..|v|] == v;
    }
  }

  lemma RetrySource(ls: Lists, plan: seq<Planned>, st: seq<Status>, local: seq<byte>, remote: seq<byte>, org: int,
                    m: int, k: nat)
    requires Divides(ls, plan, [], |st|, m, false) && Keeps(plan) == [] && ls.cancel == [] && |st| == |local|
             && k < |plan|
    requires forall i :: 0 <= i < |st| && InMp(ls.down, i) ==> st[i] != GAP
    ensures SourceIs(plan[k].file, local, remote, View(st, local, remote, org))
    ensures 0 <= plan[k].file.start && 0 < plan[k].file.size && plan[k].file.start + plan[k].file.size <= |st|
  {
    var v, p := View(st, local, remote, org), plan[k].file;
    PlanFits(plan, m, k);
    PlannedIn(plan, k, p.start);
    forall b | p.Covers(b) ensures SourceAt(p, local, remote, v, b) {
      PlannedIn(plan, k, b);
      assert !Holds([], b) && !InFiles([], b);
      assert InMp(ls.down, b);
      assert st[b] != GAP;
    }
  }

  lemma NothingWritten(up: seq<MpPart>)
    requires AllWritten(up, [])
    ensures up == []
  {
    if up != [] {
      NoneEver(up[0]);
      assert false;
    }
  }

  lemma NoneEver(p: MpPart)
    ensures NoneIn([], p.start, p.start + p.size)
  {
  }

  lemma CopyHolds(p: FilePart, sent: map<int, seq<byte>>, local: seq<byte>, remote: seq<byte>)
    requires p.isCopy && p.partNum in sent && Delivers(sent[p.partNum], p, local, remote, [])
    ensures HoldsFile(p, sent, remote)
  {
    var data := sent[p.partNum];
    forall b | p.start <= b < p.start + p.size ensures data[b - p.start] == remote[b] {
      assert !Holds([], b);
    }
    assert data == remote[p.start..p.start + p.size];
  }
}
