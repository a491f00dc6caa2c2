/** The class FdEntity of fdcache_entity.cpp: one opened file, its page list, its untreated list, the
    upload in progress, the cache file and the object. Whatever is done to it, its content is that of
    a plain byte array. */
module Entities {
  import opened Limits
  import opened Pages
  import opened PageLists
  import opened PartLimits
  import opened MixPlans
  import opened Untreated
  import opened StreamPlans
  import opened FdInfos
  import opened Contents
  import opened Flushes

  class FdEntity {
    const pagelist: PageList
    const untreated: UntreatedParts
    const info: PseudoFdInfo
    var local: seq<byte>     // the cache file
    var remote: seq<byte>    // the object
    var sizeOrgmeta: int

    ghost predicate Valid()
      reads this, pagelist, untreated, info
    {
      && pagelist.Valid() && untreated.Valid() && info.Valid()
      && |local| == pagelist.Size() && 0 <= sizeOrgmeta <= |local|
      && Sound(pagelist.Statuses(), local, remote, sizeOrgmeta)
      && (pagelist.isShrink || |remote| <= |local|)   // a cut file counts as modified
    }

    /** The file as its user sees it. */
    ghost function Content(): (v: seq<byte>)
      reads this, pagelist
      requires pagelist.Valid() && |local| == pagelist.Size()
    {
      View(pagelist.Statuses(), local, remote, sizeOrgmeta)
    }

    /** Cached bytes may be dropped without loss. */
    ghost predicate IsAnchored()
      reads this, pagelist
      requires pagelist.Valid()
    {
      Anchored(pagelist.Statuses(), sizeOrgmeta)
    }

    /** Dropping the cache would lose nothing: there is something modified, and it is not dropped, or no
        byte from sizeOrgmeta on is other than zero. */
    ghost predicate Droppable()
      reads this, pagelist
      requires pagelist.Valid() && |local| == pagelist.Size()
    {
      NoneModified(pagelist.Statuses()) ==>
        forall i :: 0 <= i < |local| && sizeOrgmeta <= i ==> Content()[i] == 0
    }

    /** The state between two operations of a stream upload with blocks of m bytes. */
    ghost predicate Streaming(m: int)
      reads this, pagelist, untreated, info
      requires pagelist.Valid()
    {
      StreamFor(pagelist.Statuses(), sizeOrgmeta, local, remote, untreated.list, info.uploadList, info.pending,
                info.sent, m)
    }

    /** No request of the upload in progress failed so far; those in flight send listed bytes of the file. */
    ghost predicate OnTrack()
      reads this, info
    {
      info.OnTrack(|local|, 0) && OnlyListed(info.pending, info.uploadList)
    }

    /** An upload can be started, or nothing of the one in progress failed so far. */
    ghost predicate CanSend(failure: int)
      reads this, info
    {
      if info.uploading then info.OnTrack(|local|, 0) else failure == 0
    }

    /** A file opened for the first time: nothing is cached. */
    constructor (stored: seq<byte>)
      ensures Valid() && IsAnchored() && Content() == stored && fresh(pagelist) && fresh(untreated) && fresh(info)
      ensures untreated.list == [] && !info.uploading && remote == stored && sizeOrgmeta == |stored|
      ensures !pagelist.isShrink && pagelist.Statuses() == seq(|stored|, i => GAP)
      ensures (forall m :: 0 < m ==> Streaming(m)) && OnTrack()
    {
      pagelist := new PageList(|stored|, false, false, false);
      untreated := new UntreatedParts();
      info := new PseudoFdInfo();
      local, remote, sizeOrgmeta := Fitted([], |stored|), stored, |stored|;
      new;
      InitFlat(|stored|, false, false, []);
      NothingHeld();
    }

    // ---- fetching

    /** Fetches one area that is neither loaded nor modified, as far as the object has it. Here and
        below, reliable tells that no request fails. */
    method FetchPage(p: Page, isModified: bool, reliable: bool) returns (result: int)
      requires Valid() && 0 < p.bytes && AllGap(pagelist.Statuses(), p.offset, p.bytes)
      modifies this`local, pagelist
      ensures Valid() && Content() == old(Content()) && (old(IsAnchored()) ==> IsAnchored())
      ensures pagelist.isShrink == old(pagelist.isShrink)
      ensures Loads(old(pagelist.Statuses()), isModified, pagelist.Statuses())
      ensures LeavesCached(old(pagelist.Statuses()), sizeOrgmeta, old(local), local)
      ensures pagelist.Statuses() ==
                if result == 0 then Overlay(old(pagelist.Statuses()), p.offset, p.bytes, Status(true, isModified))
                else old(pagelist.Statuses())
      ensures reliable ==> result == 0
    {
      var need := NeedSize(p.offset, p.bytes, sizeOrgmeta);
      NeedInObject(pagelist.Statuses(), local, remote, sizeOrgmeta, p.offset, p.bytes);
      var data := [];
      result := 0;
      if 0 < need {
        result := Request(reliable);
        if result != 0 {
          local := TornFetch(p, need);
          return;
        }
        data := remote[p.offset..p.offset + need];
      }
      StoreFetched(p, isModified, data);
    }

    method StoreFetched(p: Page, isModified: bool, data: seq<byte>)
      requires Valid() && 0 < p.bytes && AllGap(pagelist.Statuses(), p.offset, p.bytes)
      requires |data| == NeedSize(p.offset, p.bytes, sizeOrgmeta) && CopyOf(data, remote, p.offset)
      modifies this`local, pagelist
      ensures Valid() && Content() == old(Content()) && (old(IsAnchored()) ==> IsAnchored())
      ensures pagelist.isShrink == old(pagelist.isShrink)
      ensures Loads(old(pagelist.Statuses()), isModified, pagelist.Statuses())
      ensures LeavesCached(old(pagelist.Statuses()), sizeOrgmeta, old(local), local)
      ensures pagelist.Statuses() == Overlay(old(pagelist.Statuses()), p.offset, p.bytes, Status(true, isModified))
    {
      ghost var st, was := pagelist.Statuses(), local;
      FetchView(st, was, remote, sizeOrgmeta, p.offset, p.bytes, isModified, data);
      local := Patched(local, p.offset, data);
      var status := if isModified then PageStatus.LoadModified else PageStatus.Loaded;
      pagelist.SetPageLoadedStatus(p.offset, p.bytes, status);
      LoadsSound(st, was, remote, sizeOrgmeta, isModified, pagelist.Statuses(), local);
    }

    /** The cache file after a request that failed somewhere on the way. */
    method TornFetch(p: Page, need: int) returns (torn: seq<byte>)
      requires Valid() && AllGap(pagelist.Statuses(), p.offset, p.bytes)
               && need == NeedSize(p.offset, p.bytes, sizeOrgmeta)
      requires 0 <= need
      ensures |torn| == |local| && LeavesCached(pagelist.Statuses(), sizeOrgmeta, local, torn)
      ensures View(pagelist.Statuses(), torn, remote, sizeOrgmeta) == Content()
      ensures Sound(pagelist.Statuses(), torn, remote, sizeOrgmeta)
    {
      var data: seq<byte> := *;
      if |data| != need {
        data := seq(need, i => 0);
      }
      torn := Patched(local, p.offset, data);
      TornView(pagelist.Statuses(), local, remote, sizeOrgmeta, p.offset, p.bytes, data);
    }

    /** Fetches what [start, start + size) lacks, to the end of the file when size is 0. */
    method Load(start: nat, size: nat, isModified: bool, reliable: bool) returns (result: int)
      requires Valid()
      modifies this`local, pagelist
      ensures Valid() && Content() == old(Content()) && (old(IsAnchored()) ==> IsAnchored())
      ensures pagelist.isShrink == old(pagelist.isShrink)
      ensures Loads(old(pagelist.Statuses()), isModified, pagelist.Statuses())
      ensures LeavesCached(old(pagelist.Statuses()), sizeOrgmeta, old(local), local)
      ensures result == 0 ==> NoGap(pagelist.Statuses(), start, size)
      ensures SameElsewhere(old(pagelist.Statuses()), start, size, pagelist.Statuses())
      ensures reliable ==> result == 0
      ensures forall m :: 0 < m && !isModified && old(Streaming(m)) ==> Streaming(m)
    {
      ghost var st, was := pagelist.Statuses(), local;
      result := LoadAreas(start, size, isModified, reliable);
      forall m | 0 < m && !isModified && old(Streaming(m)) ensures Streaming(m) {
        StreamLoads(st, sizeOrgmeta, was, remote, untreated.list, info.uploadList, info.pending, info.sent, m,
                    pagelist.Statuses(), local);
      }
    }

    method LoadAreas(start: nat, size: nat, isModified: bool, reliable: bool) returns (result: int)
      requires Valid()
      modifies this`local, pagelist
      ensures Valid() && Content() == old(Content()) && (old(IsAnchored()) ==> IsAnchored())
      ensures pagelist.isShrink == old(pagelist.isShrink)
      ensures Loads(old(pagelist.Statuses()), isModified, pagelist.Statuses())
      ensures LeavesCached(old(pagelist.Statuses()), sizeOrgmeta, old(local), local)
      ensures result == 0 ==> NoGap(pagelist.Statuses(), start, size)
      ensures SameElsewhere(old(pagelist.Statuses()), start, size, pagelist.Statuses())
      ensures reliable ==> result == 0
    {
      var list := pagelist.GetUnloadedPages(start, size);
      ghost var st := pagelist.Statuses();
      result := 0;
      NoneLoaded(st, list);
      for k := 0 to |list|
        invariant Valid() && Content() == old(Content()) && (old(IsAnchored()) ==> IsAnchored())
        invariant Loads(st, isModified, pagelist.Statuses()) && LeavesCached(st, sizeOrgmeta, old(local), local)
        invariant LoadedUpTo(st, list, k, pagelist.Statuses()) && result == 0
        invariant pagelist.isShrink == old(pagelist.isShrink)
      {
        NextGap(st, list, k, pagelist.Statuses(), start, size);
        OnlyGaps(st, list, k, pagelist.Statuses(), start, size);
        if 0 != size && start + size <= list[k].offset {
          break;
        }
        result := FetchNext(list, k, isModified, reliable, st, old(local));
        if result != 0 {
          OnlyGaps(st, list, k, pagelist.Statuses(), start, size);
          return;
        }
      }
      AllLoaded(st, list, pagelist.Statuses(), start, size);
    }

    /** Fetches the next of several areas; st and was are the state in front of the first one. */
    method FetchNext(list: seq<Page>, k: nat, isModified: bool, reliable: bool, ghost st: seq<Status>,
                     ghost was: seq<byte>) returns (result: int)
      requires Valid() && k < |list| && 0 < list[k].bytes && AllGap(pagelist.Statuses(), list[k].offset, list[k].bytes)
      requires Loads(st, isModified, pagelist.Statuses()) && LeavesCached(st, sizeOrgmeta, was, local)
      requires LoadedUpTo(st, list, k, pagelist.Statuses())
      modifies this`local, pagelist
      ensures Valid() && Content() == old(Content()) && (old(IsAnchored()) ==> IsAnchored())
      ensures pagelist.isShrink == old(pagelist.isShrink)
      ensures Loads(st, isModified, pagelist.Statuses()) && LeavesCached(st, sizeOrgmeta, was, local)
      ensures LoadedUpTo(st, list, if result == 0 then k + 1 else k, pagelist.Statuses())
      ensures reliable ==> result == 0
    {
      ghost var mid, midLocal := pagelist.Statuses(), local;
      result := FetchPage(list[k], isModified, reliable);
      LoadsTwice(st, mid, pagelist.Statuses(), isModified);
      LeavesTwice(st, mid, isModified, sizeOrgmeta, was, midLocal, local);
      if result == 0 { OneMoreLoaded(st, list, k, mid, pagelist.Statuses(), isModified); }
    }

    // ---- writing

    /** The bytes reach the cache file, and page list and untreated list learn of them. */
    method PutBytes(start: nat, data: seq<byte>, ghost m: int)
      requires Valid() && start <= |local|
      modifies this`local, pagelist, untreated
      ensures Valid() && Content() == Patched(old(Content()), start, data)
      ensures pagelist.isShrink == old(pagelist.isShrink)
      ensures (old(IsAnchored()) ==> IsAnchored()) && (old(Streaming(m)) ==> Streaming(m))
      ensures pagelist.Statuses() == Overlay(old(pagelist.Statuses()), start, |data|, WRITTEN)
      ensures Extends(old(untreated.list), old(untreated.lastTag), start, start + |data|,
                      untreated.list, untreated.lastTag)
    {
      ghost var st, was, u := pagelist.Statuses(), local, untreated.list;
      WriteView(st, local, remote, sizeOrgmeta, start, data);
      local := Patched(local, start, data);
      if 0 < |data| {
        pagelist.SetPageLoadedStatus(start, |data|, PageStatus.LoadModified);
        var _ := untreated.AddPart(start, |data|);
      }
      assert data == [] ==> Overlay(st, start, |data|, WRITTEN) == st;
      StreamWrite(st, sizeOrgmeta, was, remote, u, info.uploadList, info.pending, info.sent, m, start, |data|, WRITTEN,
                  local, untreated.list);
    }

    /** A write behind the end of the file first fills the gap with zeros, which count as written. */
    method GrowTo(start: nat, ghost m: int)
      requires Valid()
      modifies this`local, pagelist, untreated
      ensures Valid() && Content() == (if old(|local|) < start then Fitted(old(Content()), start) else old(Content()))
      ensures pagelist.isShrink == old(pagelist.isShrink)
      ensures start <= |local| && |local| == (if old(|local|) < start then start else old(|local|))
      ensures (old(IsAnchored()) ==> IsAnchored()) && (old(Streaming(m)) ==> Streaming(m))
      ensures pagelist.Statuses() == Filled(old(pagelist.Statuses()), start)
      ensures Extends(old(untreated.list), old(untreated.lastTag), AddedFrom(old(|local|), start), start,
                      untreated.list, untreated.lastTag)
    {
      var now := pagelist.Size();
      if now < start {
        FillGap(start, m);
      }
    }

    method FillGap(start: nat, ghost m: int)
      requires Valid() && |local| < start
      modifies this`local, pagelist, untreated
      ensures Valid() && Content() == Fitted(old(Content()), start) && |local| == start
      ensures pagelist.isShrink == old(pagelist.isShrink)
      ensures (old(IsAnchored()) ==> IsAnchored()) && (old(Streaming(m)) ==> Streaming(m))
      ensures pagelist.Statuses() == Filled(old(pagelist.Statuses()), start)
      ensures Extends(old(untreated.list), old(untreated.lastTag), old(|local|), start, untreated.list,
                      untreated.lastTag)
    {
      ghost var st, was, u := pagelist.Statuses(), local, untreated.list;
      FillTo(start);
      StreamGrow(st, sizeOrgmeta, was, remote, u, info.uploadList, info.pending, info.sent, m, start, untreated.list);
    }

    method FillTo(start: nat)
      requires Valid() && |local| < start
      modifies this`local, pagelist, untreated
      ensures Valid() && Content() == Fitted(old(Content()), start) && local == Fitted(old(local), start)
      ensures pagelist.isShrink == old(pagelist.isShrink)
      ensures old(IsAnchored()) ==> IsAnchored()
      ensures pagelist.Statuses() == Overlay(old(pagelist.Statuses()), old(|local|), start - old(|local|), ZERO_FILLED)
      ensures Adds(old(untreated.list), old(|local|), start - old(|local|), untreated.list)
      ensures InNewest(untreated.list, untreated.lastTag, old(|local|), start)
    {
      var now := pagelist.Size();
      GrowView(pagelist.Statuses(), local, remote, sizeOrgmeta, start);
      local := Fitted(local, start);
      var _ := untreated.AddPart(now, start - now);
      pagelist.SetPageLoadedStatus(now, start - now, PageStatus.Modified);
    }

    /** Writes, then uploads whole blocks of the area written last in the background. */
    method WriteStreamUpload(start: nat, data: seq<byte>, m: int, failure: int) returns (result: int)
      requires Valid() && start <= |local| && 0 < m && Streaming(m)
      modifies this`local, pagelist, untreated, info
      ensures Valid() && Streaming(m) && (old(IsAnchored()) ==> IsAnchored())
      ensures pagelist.isShrink == old(pagelist.isShrink)
      ensures Content() == Patched(old(Content()), start, data)
      ensures pagelist.Statuses() == Overlay(old(pagelist.Statuses()), start, |data|, WRITTEN)
      ensures Gains(old(untreated.list), old(info.uploadList), start, start + |data|, untreated.list, info.uploadList)
      // exactly the whole blocks that the write completes are launched; without one there is no upload to start
      ensures if NoneDue(old(untreated.list), old(untreated.lastTag), start, start + |data|, m)
              then result == |data| && unchanged(info)
              else
                && result == (if failure == 0 || old(info.uploading) then |data| else failure)
                && info.uploading == (failure == 0 || old(info.uploading))
      ensures DueSent(old(untreated.list), old(untreated.lastTag), start, start + |data|, m,
                      failure == 0 || old(info.uploading), old(info.requests), info.requests, info.uploadList,
                      untreated.list)
      ensures old(OnTrack()) && |local| <= MAX_MULTIPART_CNT * m ==> OnTrack()
    {
      ghost var n, u, tag := |local|, untreated.list, untreated.lastTag;
      PutBytes(start, data, m);
      assert old(OnTrack()) ==> info.OnTrack(n, 0);
      result := UploadDue(m, failure, n, u, tag, start, start + |data|);
      if result != 0 {
        return;
      }
      return |data|;
    }

    /** Behind a write: u and tag are the untreated list in front of it, [lo, hi) is the area written. */
    method UploadDue(m: int, failure: int, ghost n: int, ghost u: seq<Part>, ghost tag: int, ghost lo: int,
                     ghost hi: int) returns (result: int)
      requires Valid() && 0 < m && Streaming(m) && n <= |local| && lo <= hi
      requires Extends(u, tag, lo, hi, untreated.list, untreated.lastTag)
      modifies untreated, info
      ensures Valid() && Streaming(m)
      ensures Gains(u, old(info.uploadList), lo, hi, untreated.list, info.uploadList)
      ensures if NoneDue(u, tag, lo, hi, m) then result == 0 && unchanged(info)
              else result == (if old(info.uploading) then 0 else failure) && info.uploading == (result == 0)
      ensures DueSent(u, tag, lo, hi, m, failure == 0 || old(info.uploading), old(info.requests), info.requests,
                      info.uploadList, untreated.list)
      ensures |local| <= MAX_MULTIPART_CNT * m
              && old(info.OnTrack(n, 0) && OnlyListed(info.pending, info.uploadList)) ==>
                OnTrack()
    {
      ghost var u', tag', log := untreated.list, untreated.lastTag, info.requests;
      ghost var sends := failure == 0 || info.uploading;
      result := UploadBoundary(m, failure, n);
      SentNewest(u, tag, lo, hi, m, u', tag', sends, log, info.requests, info.uploadList, untreated.list);
      GainsMoved(u, old(info.uploadList), lo, hi, u', tag, tag', untreated.list, info.uploadList);
    }

    /** A worker of the upload ends, at any time between two operations. */
    method WorkerEnds(k: nat, o: Outcome, ghost m: int)
      requires Valid() && Streaming(m) && MayFinish(info.pending, k)
      requires MayEnd(info.pending, k, o, local, remote, untreated.list)
      modifies info
      ensures Valid() && Streaming(m) && Content() == old(Content()) && info.pending == Without(old(info.pending), k)
      ensures old(OnTrack()) && o.Accepted? ==> OnTrack()
    {
      assert info.Right(local, remote, untreated.list);
      info.EndWorker(k, o);
      assert info.Right(local, remote, untreated.list);
    }

    method UploadBoundary(m: int, failure: int, ghost n: int) returns (result: int)
      requires Valid() && 0 < m && Streaming(m) && n <= |local|
      modifies untreated, info
      ensures Valid() && Streaming(m)
      ensures Gains(old(untreated.list), old(info.uploadList), 0, 0, untreated.list, info.uploadList)
      ensures if NoneWhole(old(untreated.list), old(untreated.lastTag), m)
              then result == 0 && unchanged(info) && unchanged(untreated)
              else result == (if old(info.uploading) then 0 else failure) && info.uploading == (result == 0)
      ensures WholeSent(old(untreated.list), old(untreated.lastTag), m, failure == 0 || old(info.uploading),
                        old(info.requests), info.requests, info.uploadList, untreated.list)
      ensures |local| <= MAX_MULTIPART_CNT * m
              && old(info.OnTrack(n, 0) && OnlyListed(info.pending, info.uploadList)) ==>
                OnTrack()
    {
      ghost var u, tag, list, pending := untreated.list, untreated.lastTag, info.uploadList, info.pending;
      assert info.OnTrack(n, 0) ==> info.OnTrack(|local|, 0);
      assert info.Right(local, remote, untreated.list);
      result := info.UploadBoundaryLastUntreatedArea(untreated, m, failure);
      assert info.Right(local, remote, untreated.list);
      if result == 0 {
        TrackedMoved(pagelist.Statuses(), sizeOrgmeta, u, tag, list, m, untreated.list, info.uploadList);
        MovedListed(pending, u, tag, list, m, untreated.list, info.uploadList);
        MovedWhole(u, tag, list, m, untreated.list, info.uploadList);
        MovedGains(u, tag, list, m, untreated.list, info.uploadList);
      }
      if result == 0 { WholeRun(u, tag, m); }
    }

    /** With stream upload: the content becomes what a plain file would hold after the write of the
        first written bytes of data. */
    method Write(start: nat, data: seq<byte>, written: nat, m: int, failure: int) returns (result: int)
      requires Valid() && 0 < m && Streaming(m) && written <= |data|
      modifies this`local, pagelist, untreated, info
      ensures Valid() && Streaming(m) && (old(IsAnchored()) ==> IsAnchored())
      ensures pagelist.isShrink == old(pagelist.isShrink)
      ensures Content() == Written(old(Content()), start, data[..written])
      ensures pagelist.Statuses() == Overlay(Filled(old(pagelist.Statuses()), start), start, written, WRITTEN)
      ensures Gains(old(untreated.list), old(info.uploadList), AddedFrom(old(|local|), start), start + written,
                    untreated.list, info.uploadList)
      // exactly the whole blocks that the write completes are launched; without one there is no upload to start
      ensures if NoneDue(old(untreated.list), old(untreated.lastTag), AddedFrom(old(|local|), start), start + written,
                         m)
              then result == written && unchanged(info)
              else
                && result == (if failure == 0 || old(info.uploading) then written else failure)
                && info.uploading == (failure == 0 || old(info.uploading))
      ensures DueSent(old(untreated.list), old(untreated.lastTag), AddedFrom(old(|local|), start), start + written, m,
                      failure == 0 || old(info.uploading), old(info.requests), info.requests, info.uploadList,
                      untreated.list)
      ensures old(OnTrack()) && |local| <= MAX_MULTIPART_CNT * m ==> OnTrack()
    {
      ghost var lo, u, tag := AddedFrom(|local|, start), untreated.list, untreated.lastTag;
      GrowTo(start, m);
      result := WriteGrown(start, data[..written], written, m, failure, u, tag, lo);
    }

    /** The write behind a gap that was filled: u and tag are the untreated list in front of that, the gap
        starts at lo. */
    method WriteGrown(start: nat, data: seq<byte>, ghost written: nat, m: int, failure: int, ghost u: seq<Part>,
                      ghost tag: int, ghost lo: int) returns (result: int)
      requires Valid() && lo <= start <= |local| && |data| == written && 0 < m && Streaming(m)
      requires Extends(u, tag, lo, start, untreated.list, untreated.lastTag)
      modifies this`local, pagelist, untreated, info
      ensures Valid() && Streaming(m) && (old(IsAnchored()) ==> IsAnchored())
      ensures pagelist.isShrink == old(pagelist.isShrink)
      ensures Content() == Patched(old(Content()), start, data)
      ensures pagelist.Statuses() == Overlay(old(pagelist.Statuses()), start, written, WRITTEN)
      ensures Gains(u, old(info.uploadList), lo, start + written, untreated.list, info.uploadList)
      ensures if NoneDue(u, tag, lo, start + written, m)
              then result == written && unchanged(info)
              else
                && result == (if failure == 0 || old(info.uploading) then written else failure)
                && info.uploading == (failure == 0 || old(info.uploading))
      ensures DueSent(u, tag, lo, start + written, m, failure == 0 || old(info.uploading), old(info.requests),
                      info.requests, info.uploadList, untreated.list)
      ensures old(OnTrack()) && |local| <= MAX_MULTIPART_CNT * m ==> OnTrack()
    {
      ghost var u', tag', log := untreated.list, untreated.lastTag, info.requests;
      ghost var sends := failure == 0 || info.uploading;
      result := WriteStreamUpload(start, data, m, failure);
      GainsGrown(u, info.uploadList, old(info.uploadList), lo, start, start + |data|, u', tag, tag', untreated.list);
      SentGrown(u, tag, lo, start, start + |data|, m, u', tag', sends, log, info.requests, info.uploadList,
                untreated.list);
    }

    /** With mixed upload. room tells whether the disk has room. A write for which it has none, and that
        is long enough for a part, goes past the cache, and so do the writes behind it: cached is
        false then, and what becomes of the data is not part of this model. */
    method WriteMix(start: nat, data: seq<byte>, written: nat, m: int, room: bool) returns (cached: bool, result: int)
      requires Valid() && IsAnchored() && written <= |data|
      modifies this`local, pagelist, untreated
      ensures Valid() && IsAnchored()
      ensures pagelist.isShrink == old(pagelist.isShrink)
      ensures cached ==> result == written || (result == -28 && !room && start + |data| <= m)
      ensures Content() == if cached && result == written then Written(old(Content()), start, data[..written])
                           else if old(|local|) < start then Fitted(old(Content()), start) else old(Content())
      ensures cached && result == written && room ==>
                pagelist.Statuses() == Overlay(Filled(old(pagelist.Statuses()), start), start, written, WRITTEN)
      ensures cached ==> !info.uploading
      ensures !info.uploading && (room || start + |data| <= m) ==> cached
    {
      GrowTo(start, m);
      cached, result := !info.uploading, 0;
      if !info.uploading {
        var ok := ReserveDiskSpace(room);
        if !ok {
          cached, result := start + |data| <= m, -28;
          return;
        }
        PutBytes(start, data[..written], m);
        result := written;
      }
    }

    // ---- the cache file

    /** When the disk is full the cache of an unmodified file is dropped; room tells whether the first
        attempt finds room. The content survives in an anchored file; what else can be lost are the
        bytes from sizeOrgmeta on, see DropCache. */
    method ReserveDiskSpace(room: bool) returns (ok: bool)
      requires Valid()
      modifies this`local, pagelist
      ensures room ==> ok
      ensures pagelist.isShrink == old(pagelist.isShrink)
      ensures pagelist.Valid() && |local| == pagelist.Size() == old(|local|)
      ensures room || !NoneModified(old(pagelist.Statuses())) ==>
                pagelist.pages == old(pagelist.pages) && local == old(local)
      // without room the cache of a file that does not count as modified is given up
      ensures !room && old(!pagelist.isShrink && NoFlag(pagelist.pages)) ==>
                pagelist.Statuses() == seq(|local|, i => GAP)
      ensures pagelist.Statuses() == old(pagelist.Statuses()) ||
              (NoneModified(old(pagelist.Statuses())) && NoneModified(pagelist.Statuses()))
      ensures old(IsAnchored()) ==> Content() == old(Content()) && IsAnchored()
      ensures Content() == old(Content()) ==> Valid()
      ensures Content() != old(Content()) ==> exists i :: sizeOrgmeta <= i < |local| && old(Content())[i] != 0
    {
      if room {
        return true;
      }
      var modified := pagelist.IsModified();
      if !modified {
        NoPageModified(pagelist.pages);
        DropCache();
        ok := *;
        if ok {
          return;
        }
      }
      ok := *;
    }

    /** Drops the cache of an unmodified file. This loses its content exactly if there is a byte from
        sizeOrgmeta on that is not zero: such bytes are in no cache and are never fetched again. */
    method DropCache()
      requires Valid() && NoneModified(pagelist.Statuses()) && !pagelist.isShrink
      modifies this`local, pagelist
      ensures pagelist.Valid() && |local| == pagelist.Size() == old(|local|)
      ensures pagelist.isShrink == old(pagelist.isShrink)
      ensures Content() == old(Content()) <==>
                forall i :: 0 <= i < |local| && sizeOrgmeta <= i ==> old(Content())[i] == 0
      ensures Content() == old(Content()) ==> Valid()
      ensures old(IsAnchored()) ==> Content() == old(Content()) && IsAnchored()
      ensures NoneModified(pagelist.Statuses()) && pagelist.Statuses() == seq(|local|, i => GAP)
    {
      ghost var st, was := pagelist.Statuses(), local;
      pagelist.Init(pagelist.Size(), false, false);
      local := Fitted([], |local|);
      DropView(st, was, remote, sizeOrgmeta);
      if Content() == old(Content()) {
        SameSound(st, was, pagelist.Statuses(), local, remote, sizeOrgmeta);
      }
    }

    /** Delivers the bytes of the content; prefetch is the number of bytes read ahead. */
    method Read(start: nat, size: nat, prefetch: nat, room: bool, reliable: bool) returns (result: int, data: seq<byte>)
      requires Valid() && (room || Droppable()) && size <= prefetch
      modifies this`local, pagelist
      ensures Valid() && Content() == old(Content()) && (old(IsAnchored()) ==> IsAnchored())
      ensures pagelist.isShrink == old(pagelist.isShrink)
      ensures result == 0 ==>
                |data| == if |Content()| <= start then 0 else if start + size <= |Content()| then size
                          else |Content()| - start
      ensures result == 0 ==> forall k :: 0 <= k < |data| ==> data[k] == Content()[start + k]
      ensures result == 0 ==> data == Slice(Content(), start, size)
      ensures room && reliable ==> result == 0
      // what is cached already is read without a request; what is fetched lies in the range or is read ahead
      ensures old(NoGap(pagelist.Statuses(), start, size)) ==>
                result == 0 && pagelist.Statuses() == old(pagelist.Statuses()) && local == old(local)
      ensures room ==> SameElsewhere(old(pagelist.Statuses()), start, prefetch, pagelist.Statuses())
      ensures room && result == 0 && 0 < size && !old(NoGap(pagelist.Statuses(), start, size)) ==>
                NoGap(pagelist.Statuses(), start, prefetch)
      ensures |local| == old(|local|)
      ensures forall m :: room && 0 < m && old(Streaming(m)) ==> Streaming(m)
    {
      result, data := 0, [];
      ghost var st := pagelist.Statuses();
      CachedCounts(st, start, size);
      var rest := pagelist.GetTotalUnloadedPageSize(start, size, 0);
      if 0 < rest {
        result := FetchForRead(start, size, prefetch, room, reliable);
        if result != 0 {
          return;
        }
      } else {
        NothingUnloaded(pagelist.Statuses(), local, remote, sizeOrgmeta, start, size);
      }
      data := Slice(local, start, size);
    }

    /** Fetches the range and what is read ahead behind it. */
    method FetchForRead(start: nat, size: nat, prefetch: nat, room: bool, reliable: bool) returns (result: int)
      requires Valid() && (room || Droppable()) && size <= prefetch
      modifies this`local, pagelist
      ensures Valid() && Content() == old(Content()) && (old(IsAnchored()) ==> IsAnchored())
      ensures pagelist.isShrink == old(pagelist.isShrink) && |local| == old(|local|)
      ensures result == 0 ==> Slice(local, start, size) == Slice(Content(), start, size)
      ensures room && reliable ==> result == 0
      ensures room ==> SameElsewhere(old(pagelist.Statuses()), start, prefetch, pagelist.Statuses())
      ensures room && result == 0 && 0 < size ==> NoGap(pagelist.Statuses(), start, prefetch)
      ensures forall m :: room && 0 < m && old(Streaming(m)) ==> Streaming(m)
    {
      ghost var st := pagelist.Statuses();
      var ok, loadSize := ReserveForRead(start, size, prefetch, room);
      if !ok {
        return -28;
      }
      result := 0;
      if 0 < size {
        result := Load(start, loadSize, false, reliable);
      }
      if room { SameWider(st, start, loadSize, prefetch, pagelist.Statuses()); }
      if result == 0 {
        if 0 < size { LoadedWider(pagelist.Statuses(), start, loadSize, prefetch); }
        LoadedHere(pagelist.Statuses(), local, remote, sizeOrgmeta, start, size, loadSize);
      }
    }

    /** Room for what is read ahead, or at least for what is read. */
    method ReserveForRead(start: nat, size: nat, prefetch: nat, room: bool) returns (ok: bool, loadSize: nat)
      requires Valid() && (room || Droppable()) && size <= prefetch
      modifies this`local, pagelist
      ensures Valid() && Content() == old(Content()) && (old(IsAnchored()) ==> IsAnchored())
      ensures pagelist.isShrink == old(pagelist.isShrink)
      ensures room ==> ok && pagelist.Statuses() == old(pagelist.Statuses()) && local == old(local)
      ensures |local| == old(|local|) && size <= loadSize <= prefetch
      ensures room ==> loadSize == prefetch || |local| <= start + loadSize
    {
      loadSize := size;
      if start + size < pagelist.Size() {
        loadSize := if start + prefetch < pagelist.Size() then prefetch else pagelist.Size() - start;
      }
      ok := ReserveDiskSpace(room);
      if !ok {
        loadSize := size;
        ok := ReserveDiskSpace(room);
      }
    }

    /** Opening a file that is open already: size >= 0 truncates or extends it, and what lies behind
        sizeOrgmeta counts as untreated; meta >= 0 is the size of the object as its headers say. */
    method Open(size: int, meta: int, ghost m: int)
      requires Valid() && (meta < 0 || meta == |remote|)
      modifies this`local, this`sizeOrgmeta, pagelist, untreated
      ensures Valid() && (old(IsAnchored()) ==> IsAnchored())
      ensures Content() == if 0 <= size then Fitted(old(Content()), size) else old(Content())
      // the smaller of the file's new size and the object's size, as far as the call tells them
      ensures var newSize, known := if 0 <= size then size else old(sizeOrgmeta),
                                    if 0 <= meta then |remote| else old(sizeOrgmeta);
              sizeOrgmeta <= newSize && sizeOrgmeta <= known && (sizeOrgmeta == newSize || sizeOrgmeta == known)
      ensures sizeOrgmeta == OpenedOrg(old(sizeOrgmeta), size, meta)
      ensures pagelist.Statuses() == Sized(old(pagelist.Statuses()), |local|, ZERO_FILLED)
      ensures pagelist.isShrink == (old(pagelist.isShrink) || |local| < old(|local|))
      ensures if 0 <= size && old(sizeOrgmeta) < size
              then Adds(old(untreated.list), old(sizeOrgmeta), size - old(sizeOrgmeta), untreated.list)
              else untreated.list == old(untreated.list)
      // an upload in progress stays in order exactly if nothing uploaded or untreated lies behind the new
      // end, nor is now to be fetched
      ensures 0 < m && old(Streaming(m)) ==>
                (Streaming(m) <==>
                   && (0 <= size ==> InFile(old(untreated.list), info.uploadList, size))
                   && KeptOff(old(pagelist.Statuses()), old(sizeOrgmeta), sizeOrgmeta, untreated.list, info.uploadList))
      ensures old(IsAnchored()) || sizeOrgmeta <= old(sizeOrgmeta) ==>
                KeptOff(old(pagelist.Statuses()), old(sizeOrgmeta), sizeOrgmeta, untreated.list, info.uploadList)
      ensures old(OnTrack()) && (0 <= size ==> EndsBy(info.uploadList, size)) ==> OnTrack()
    {
      ghost var st, was, u, org := pagelist.Statuses(), local, untreated.list, sizeOrgmeta;
      ghost var n := if 0 <= size then size else |local|;
      ghost var track := OnTrack();
      OpenBytes(size, meta, n);
      StreamTruncate(st, org, was, remote, u, info.uploadList, info.pending, info.sent, m, n, size, sizeOrgmeta,
                     untreated.list);
      AnchoredOff(st, org, sizeOrgmeta, untreated.list, info.uploadList);
      assert track && (0 <= size ==> EndsBy(info.uploadList, size)) ==> Reachable(info.pending, n, 0);
    }

    method OpenBytes(size: int, meta: int, ghost n: nat)
      requires Valid() && (meta < 0 || meta == |remote|) && n == (if 0 <= size then size else |local|)
      modifies this`local, this`sizeOrgmeta, pagelist, untreated
      ensures Valid() && Content() == Fitted(old(Content()), n) && (old(IsAnchored()) ==> IsAnchored())
      ensures sizeOrgmeta == OpenedOrg(old(sizeOrgmeta), size, meta) <= n == |local|
      ensures local == Fitted(old(local), n) && pagelist.Statuses() == Sized(old(pagelist.Statuses()), n, ZERO_FILLED)
      ensures pagelist.isShrink == (old(pagelist.isShrink) || n < old(|local|))
      ensures if 0 <= size && old(sizeOrgmeta) < size
              then Adds(old(untreated.list), old(sizeOrgmeta), size - old(sizeOrgmeta), untreated.list)
              else untreated.list == old(untreated.list)
    {
      TruncateView(pagelist.Statuses(), local, remote, sizeOrgmeta, n, size, meta);
      SetSize(size, n);
      if 0 <= size && sizeOrgmeta < size {
        var _ := untreated.AddPart(sizeOrgmeta, size - sizeOrgmeta);
      }
      sizeOrgmeta := OpenedOrg(sizeOrgmeta, size, meta);
    }

    method SetSize(size: int, ghost n: nat)
      requires pagelist.Valid() && |local| == pagelist.Size() && n == (if 0 <= size then size else |local|)
      modifies this`local, pagelist
      ensures pagelist.Valid() && |local| == pagelist.Size() == n
      ensures local == Fitted(old(local), n) && pagelist.Statuses() == Sized(old(pagelist.Statuses()), n, ZERO_FILLED)
      ensures pagelist.isShrink == (old(pagelist.isShrink) || n < old(|local|))
    {
      SameSize(pagelist.Statuses(), local, n);
      if 0 <= size && pagelist.Size() != size {
        local := Fitted(local, size);
        pagelist.Resize(size, false, true);
      }
    }

    /** Punches the unmodified bytes, and whatever lies between them, out of the cache file; done are
        the areas punched before the file system refused one, which a reliable one does not. */
    method PunchHole(reliable: bool) returns (ok: bool, ghost done: seq<Page>)
      requires Valid()
      modifies this`local, pagelist
      ensures pagelist.Valid() && |local| == pagelist.Size() == old(|local|)
      ensures pagelist.isShrink == old(pagelist.isShrink)
      ensures Punched(old(pagelist.Statuses()), old(local), done, pagelist.Statuses(), local)
      ensures forall b :: Hit(done, b) ==> BetweenClean(old(pagelist.pages), b)
      ensures ok ==> forall b :: BetweenClean(old(pagelist.pages), b) ==> Hit(done, b)
      ensures reliable ==> ok
      ensures Content() == old(Content()) <==>
                forall i :: 0 <= i < |local| && Hit(done, i) ==> old(Content())[i] == Refetched(remote, sizeOrgmeta, i)
      // of an unmodified file exactly the bytes from sizeOrgmeta on that are not zero are lost
      ensures old(NoneModified(pagelist.Statuses())) ==>
                (Content() == old(Content()) <==>
                   forall i :: 0 <= i < |local| && Hit(done, i) ==> i < sizeOrgmeta || old(Content())[i] == 0)
      ensures old(NoneModified(pagelist.Statuses()) && IsAnchored()) ==>
                Valid() && Content() == old(Content()) && IsAnchored()
    {
      ghost var st, was := pagelist.Statuses(), local;
      var areas := pagelist.GetNoDataPageLists();
      ok, done := PunchAreas(areas, reliable);
      PunchView(st, was, remote, sizeOrgmeta, done, pagelist.Statuses(), local);
      if NoneModified(st) {
        PunchUnmodified(st, was, remote, sizeOrgmeta, done, pagelist.Statuses(), local);
      }
      if Anchored(st, sizeOrgmeta) {
        PunchAnchored(st, was, remote, sizeOrgmeta, done, pagelist.Statuses(), local);
      }
    }

    method PunchAreas(areas: seq<Page>, reliable: bool) returns (ok: bool, ghost done: seq<Page>)
      requires pagelist.Valid() && |local| == pagelist.Size() && Laid(areas) && Positive(areas)
               && SizeOf(areas) <= |local|
      modifies this`local, pagelist
      ensures pagelist.Valid() && |local| == pagelist.Size() == old(|local|)
      ensures Punched(old(pagelist.Statuses()), old(local), done, pagelist.Statuses(), local)
      ensures forall b :: Hit(done, b) ==> Hit(areas, b)
      ensures (ok ==> done == areas) && (reliable ==> ok) && pagelist.isShrink == old(pagelist.isShrink)
    {
      ghost var st, was := pagelist.Statuses(), local;
      done := [];
      for k := 0 to |areas|
        invariant pagelist.Valid() && |local| == pagelist.Size() == |was|
        invariant done == areas[..k] && Punched(st, was, done, pagelist.Statuses(), local)
        invariant pagelist.isShrink == old(pagelist.isShrink)
      {
        var p := areas[k];
        HitPrefix(areas, k);
        LaidIndex(areas, k);
        ok := *;
        if !ok && !reliable {
          return;
        }
        PunchStep(st, was, areas[..k], p, pagelist.Statuses(), local);
        local := Patched(local, p.offset, seq(p.bytes, i => 0));
        pagelist.SetPageLoadedStatus(p.offset, p.bytes, PageStatus.NotLoadModified);
        done := areas[..k] + [p];
        assert done == areas[..k + 1];
      }
      ok := true;
      assert areas[..|areas|] == areas;
    }

    // ---- flushing

    /** Whether a flush can be left out: it is not forced, the headers are up to date, and neither a byte
        nor the size was modified. The object is the file then. */
    method NothingToFlush(force: bool, dirtyHeaders: bool) returns (clean: bool)
      requires Valid()
      ensures clean ==> remote == Content() && NoneModified(pagelist.Statuses()) && !pagelist.isShrink
      ensures clean ==> !force && !dirtyHeaders
      ensures !clean ==> force || dirtyHeaders || pagelist.isShrink || !NoneModified(pagelist.Statuses()) || local == []
    {
      var modified := pagelist.IsModified();
      clean := !force && !modified && !dirtyHeaders;
      NoPageModifiedIff(pagelist.pages);
      if clean { CleanView(pagelist.Statuses(), local, remote, sizeOrgmeta); }
    }

    // ---- flushing by mixed upload

    /** Fetches the areas of a plan, counting them as modified from then on. */
    method LoadPages(dl: seq<Page>, reliable: bool) returns (result: int)
      requires Valid() && forall k :: 0 <= k < |dl| ==> 0 <= dl[k].offset && 0 < dl[k].bytes
      modifies this`local, pagelist
      ensures Valid() && Content() == old(Content()) && (old(IsAnchored()) ==> IsAnchored())
      ensures pagelist.isShrink == old(pagelist.isShrink)
      ensures Loads(old(pagelist.Statuses()), true, pagelist.Statuses())
      ensures result == 0 ==> HitsLoaded(dl, pagelist.Statuses())
      ensures OnlyHits(old(pagelist.Statuses()), dl, pagelist.Statuses())
      ensures reliable ==> result == 0
    {
      ghost var st := pagelist.Statuses();
      result := 0;
      for k := 0 to |dl|
        invariant Valid() && Content() == old(Content()) && (old(IsAnchored()) ==> IsAnchored()) && result == 0
        invariant Loads(st, true, pagelist.Statuses()) && HitsLoaded(dl[..k], pagelist.Statuses())
        invariant OnlyHits(st, dl, pagelist.Statuses()) && pagelist.isShrink == old(pagelist.isShrink)
      {
        ghost var mid := pagelist.Statuses();
        result := Load(dl[k].offset, dl[k].bytes, true, reliable);
        LoadsTwice(st, mid, pagelist.Statuses(), true);
        OnlyHit(st, dl, k, mid, pagelist.Statuses());
        if result != 0 {
          return;
        }
        OneMoreHit(dl, k, mid, pagelist.Statuses());
      }
      assert dl[..|dl|] == dl;
    }

    /** Sends the modified stretches and copies the others, if the file is large enough for parts;
        otherwise sends it whole. On success the object is the file; a failure leaves the object. Only a
        failing request, too large a file or too many requests are reasons to fail. An upload past the
        cache, begun by a write or for lack of room, is not part of this model: cached is false then. */
    method RowFlushMixMultipart(m: int, copySize: int, room: bool, reliable: bool) returns (cached: bool, result: int)
      requires Valid() && IsAnchored() && MIN_MULTIPART_SIZE <= m && MIN_MULTIPART_SIZE <= copySize
      modifies this, pagelist, untreated
      ensures Valid() && IsAnchored() && Content() == old(Content()) && |local| == old(|local|)
      ensures pagelist.isShrink == (!(cached && result == 0) && old(pagelist.isShrink))
      ensures cached && result == 0 ==> remote == Content() && NoneModified(pagelist.Statuses()) && untreated.list == []
      ensures !cached || result != 0 ==> remote == old(remote)
      ensures cached && MAX_MULTIPART_CNT * m < |local| ==> result == -27
      ensures m <= |local| && (room || !NoneModified(old(pagelist.Statuses()))) ==>
                HullLoaded(old(pagelist.pages), m, old(pagelist.Statuses()), pagelist.Statuses())
      ensures cached && result == 0 ==> MixFits(old(pagelist.pages), m, copySize)
      ensures cached && reliable && MixFits(old(pagelist.pages), m, copySize) ==> result == 0
      ensures cached && reliable && |local| < MAX_MULTIPART_CNT * MIN_MULTIPART_SIZE ==> result == 0
      ensures cached ==> !info.uploading
      ensures !info.uploading && (room || NoGap(old(pagelist.Statuses()), 0, 0)) ==> cached
    {
      cached, result := !info.uploading, 0;
      if info.uploading {
        return;
      }
      cached := ReserveForMix(m, copySize, room);
      if !cached {
        return;
      }
      result := SendCached(m, copySize, reliable);
    }

    /** Room for what a mixed upload has to fetch. */
    method ReserveForMix(ghost m: int, ghost copySize: int, room: bool) returns (ok: bool)
      requires Valid() && IsAnchored() && MIN_MULTIPART_SIZE <= m && MIN_MULTIPART_SIZE <= copySize
      modifies this`local, pagelist
      ensures Valid() && IsAnchored() && Content() == old(Content()) && |local| == old(|local|)
      ensures pagelist.isShrink == old(pagelist.isShrink)
      ensures MixFits(pagelist.pages, m, copySize) <==> old(MixFits(pagelist.pages, m, copySize))
      ensures |local| < MAX_MULTIPART_CNT * MIN_MULTIPART_SIZE ==> MixFits(pagelist.pages, m, copySize)
      ensures room || NoGap(old(pagelist.Statuses()), 0, 0) ==> ok
      ensures room || !NoneModified(old(pagelist.Statuses())) ==> pagelist.pages == old(pagelist.pages)
    {
      ghost var pages := pagelist.pages;
      var rest := pagelist.GetTotalUnloadedPageSize(0, 0, MIN_MULTIPART_SIZE);
      ok := true;
      if 0 < rest {
        GapLeft(pagelist.Statuses());
        ok := ReserveDiskSpace(room);
      }
      SameFits(pages, pagelist.pages, m, copySize);
    }

    method SendCached(m: int, copySize: int, reliable: bool) returns (result: int)
      requires Valid() && IsAnchored() && MIN_MULTIPART_SIZE <= m && MIN_MULTIPART_SIZE <= copySize
      modifies this, pagelist, untreated
      ensures Valid() && IsAnchored() && Content() == old(Content()) && |local| == old(|local|)
      ensures pagelist.isShrink == (result != 0 && old(pagelist.isShrink))
      ensures result == 0 ==> remote == Content() && NoneModified(pagelist.Statuses()) && untreated.list == []
      ensures result != 0 ==> remote == old(remote)
      ensures MAX_MULTIPART_CNT * m < |local| ==> result == -27
      ensures m <= |local| ==> HullLoaded(old(pagelist.pages), m, old(pagelist.Statuses()), pagelist.Statuses())
      ensures result == 0 ==> MixFits(old(pagelist.pages), m, copySize)
      ensures reliable && MixFits(old(pagelist.pages), m, copySize) ==> result == 0
    {
      if MAX_MULTIPART_CNT * m < pagelist.Size() {
        return -27;
      }
      var reply, parts := [], 1;
      if m <= pagelist.Size() {
        result, reply, parts := SendMixed(m, copySize, reliable);
      } else {
        result, reply := SendWhole(reliable);
      }
      if result != 0 {
        return;
      }
      result := Replace(reply, parts, reliable);
    }

    /** The requests, as many as parts, that make reply the object; the size of the object is noted
        whether they succeed or not. */
    method Replace(reply: seq<byte>, parts: nat, reliable: bool) returns (result: int)
      requires Valid() && reply == Content() && (IsAnchored() || NoGap(pagelist.Statuses(), 0, 0))
      modifies this`remote, this`sizeOrgmeta, pagelist, untreated
      ensures Valid() && Content() == old(Content()) && sizeOrgmeta == |local| && untreated.list == []
      ensures pagelist.isShrink == (result != 0 && old(pagelist.isShrink))
      ensures if result == 0
              then remote == reply && pagelist.Statuses() == Unmodified(old(pagelist.Statuses())) && IsAnchored()
              else
                && remote == old(remote) && pagelist.Statuses() == old(pagelist.Statuses())
                && (old(IsAnchored()) ==> IsAnchored())
      ensures result == 0 ==> parts <= MAX_MULTIPART_CNT
      ensures reliable && parts <= MAX_MULTIPART_CNT ==> result == 0
    {
      ghost var st, was, org := pagelist.Statuses(), remote, sizeOrgmeta;
      sizeOrgmeta := |local|;
      untreated.ClearAll();
      result := SendRequests(parts, reliable);
      OrgView(st, local, was, org, sizeOrgmeta);
      if result == 0 {
        remote := reply;
        pagelist.ClearAllModified();
        FlushedView(st, local, was, org, sizeOrgmeta);
      }
    }

    /** Everything up to the requests of a mixed upload, which decide whether reply becomes the
        object. */
    method SendMixed(m: int, copySize: int, reliable: bool) returns (result: int, reply: seq<byte>, parts: nat)
      requires Valid() && IsAnchored() && MIN_MULTIPART_SIZE <= m && MIN_MULTIPART_SIZE <= copySize
      modifies this`local, pagelist
      ensures Valid() && IsAnchored() && Content() == old(Content())
      ensures pagelist.isShrink == old(pagelist.isShrink)
      ensures result == 0 ==> reply == Content() && parts == MixCount(old(pagelist.pages), m, copySize)
      ensures HullLoaded(old(pagelist.pages), m, old(pagelist.Statuses()), pagelist.Statuses())
      ensures |local| == old(|local|) && (reliable ==> result == 0)
    {
      reply, parts := [], 0;
      ghost var pages, was, st := pagelist.pages, local, pagelist.Statuses();
      var dl, up := PlanParts(m);
      result := LoadPages(dl, reliable);
      HullFetches(pages, dl, m, st, pagelist.Statuses());
      if result != 0 {
        return;
      }
      reply, parts := JoinRequests(pages, dl, up, m, copySize, was);
    }

    /** What the plan has to offer to this upload. */
    method PlanParts(m: int) returns (dl: seq<Page>, up: seq<Page>)
      requires pagelist.Valid() && MIN_MULTIPART_SIZE <= m
      modifies pagelist`pages
      ensures pagelist.pages == old(pagelist.pages) && up == MixUploads(pagelist.pages, m)
      ensures MixTiles(up, pagelist.Size(), m) && MixSound(pagelist.pages, dl, up) && MixHull(pagelist.pages, dl, up)
      ensures forall k :: 0 <= k < |dl| ==> 0 <= dl[k].offset && 0 < dl[k].bytes
    {
      dl, up := pagelist.GetPageListsForMultipartUpload(m);
      HullPlace(pagelist.pages, dl, up);
    }

    /** The requests of the plan, and what they build. */
    method JoinRequests(ghost pages: seq<Page>, ghost dl: seq<Page>, up: seq<Page>, ghost m: int, copySize: int,
                        ghost was: seq<byte>) returns (reply: seq<byte>, parts: nat)
      requires pagelist.Valid() && |local| == pagelist.Size() && 0 < m && MIN_MULTIPART_SIZE <= copySize
      requires WellFormed(pages) && |local| == |was| == SizeOf(pages)
      requires MixTiles(up, SizeOf(pages), m) && MixSound(pages, dl, up)
      requires Sound(Flat(pages), was, remote, sizeOrgmeta)
      requires Loads(Flat(pages), true, pagelist.Statuses()) && HitsLoaded(dl, pagelist.Statuses())
      requires View(pagelist.Statuses(), local, remote, sizeOrgmeta) == View(Flat(pages), was, remote, sizeOrgmeta)
      ensures reply == View(Flat(pages), was, remote, sizeOrgmeta) && parts == |Requests(up, copySize)|
    {
      var reqs := MixRequests(up, copySize);
      RequestsKeep(up, copySize, 2 * m);
      reply, parts := Joined(reqs, local, remote), |reqs|;
      MixObject(pages, dl, up, reqs, was, remote, sizeOrgmeta, pagelist.Statuses(), local);
    }

    /** Everything up to the request that sends the file whole. */
    method SendWhole(reliable: bool) returns (result: int, reply: seq<byte>)
      requires Valid()
      modifies this`local, pagelist
      ensures Valid() && Content() == old(Content()) && (old(IsAnchored()) ==> IsAnchored())
      ensures pagelist.isShrink == old(pagelist.isShrink)
      ensures result == 0 ==> reply == Content() && NoGap(pagelist.Statuses(), 0, 0)
      ensures forall m :: 0 < m && old(Streaming(m)) ==> Streaming(m)
      ensures |local| == old(|local|) && (reliable ==> result == 0)
      ensures Loads(old(pagelist.Statuses()), false, pagelist.Statuses())
    {
      result := Load(0, 0, false, reliable);
      reply := local;
      if result == 0 { WholeLocal(pagelist.Statuses(), local, remote, sizeOrgmeta); }
    }

    // ---- flushing by stream upload

    method LoadParts(down: seq<MpPart>, reliable: bool) returns (result: int)
      requires Valid() && Apart(down, |local|)
      modifies this`local, pagelist
      ensures Valid() && Content() == old(Content()) && (old(IsAnchored()) ==> IsAnchored())
      ensures pagelist.isShrink == old(pagelist.isShrink)
      ensures Loads(old(pagelist.Statuses()), false, pagelist.Statuses())
      ensures LeavesCached(old(pagelist.Statuses()), sizeOrgmeta, old(local), local)
      ensures result == 0 ==> PartsLoaded(down, pagelist.Statuses())
      ensures SameBut(old(pagelist.Statuses()), down, pagelist.Statuses())
      ensures reliable ==> result == 0
    {
      ghost var st, was := pagelist.Statuses(), local;
      result := 0;
      for k := 0 to |down|
        invariant Valid() && Content() == old(Content()) && (old(IsAnchored()) ==> IsAnchored()) && result == 0
        invariant Loads(st, false, pagelist.Statuses()) && LeavesCached(st, sizeOrgmeta, was, local)
        invariant PartsLoaded(down[..k], pagelist.Statuses()) && SameBut(st, down, pagelist.Statuses())
        invariant pagelist.isShrink == old(pagelist.isShrink)
      {
        ghost var mid, midLocal := pagelist.Statuses(), local;
        ApartIndex(down, |local|, k);
        result := Load(down[k].start, down[k].size, false, reliable);
        LoadsTwice(st, mid, pagelist.Statuses(), false);
        LeavesTwice(st, mid, false, sizeOrgmeta, was, midLocal, local);
        OnlyPart(st, down, k, mid, pagelist.Statuses());
        if result != 0 {
          return;
        }
        OneMorePart(down, k, mid, pagelist.Statuses());
      }
      assert down[..|down|] == down;
    }

    /** Brings the object up to date. A file of at most one block is sent whole; otherwise the file is
        divided, what the parts lack is fetched, and the parts not uploaded yet are sent or copied.
        On success the object is the file; on a failure it is what it was, or the file. Without a
        failing request there is no failure. */
    method RowFlushStreamMultipart(m: int, useCopy: bool, room: bool, failure: int, reliable: bool)
      returns (result: int)
      requires Valid() && MIN_MULTIPART_SIZE <= m && Streaming(m) && (room || !NoneModified(pagelist.Statuses()))
      modifies this, pagelist, untreated, info
      ensures Valid() && Content() == old(Content()) && |local| == old(|local|)
      ensures pagelist.isShrink == (result != 0 && old(pagelist.isShrink))
      ensures result == 0 ==> remote == Content() && NoneModified(pagelist.Statuses()) && untreated.list == []
      // the size of the new object is noted only after sending the file whole
      ensures result == 0 ==> sizeOrgmeta == (if |local| <= m then |local| else old(sizeOrgmeta))
      ensures result == 0 ==> (IsAnchored() <==> |local| <= sizeOrgmeta)
      // the blocks of a small file stay listed; written since or with bytes never loaded they are out of order
      ensures result == 0 && m < |local| ==> Streaming(m)
      ensures result == 0 && old(Intact(pagelist.Statuses(), untreated.list, info.uploadList)) ==> Streaming(m)
      ensures result != 0 ==> remote == old(remote) || remote == Content()
      ensures result != 0 && untreated.list == old(untreated.list) && info.uploadList == old(info.uploadList) ==>
                Streaming(m)
      // the service takes a limited number of parts, which nothing checks in advance
      ensures result == 0 ==> |local| <= MAX_MULTIPART_CNT * m
      ensures reliable && room && old(CanSend(failure)) ==> (result == 0 <==> |local| <= MAX_MULTIPART_CNT * m)
      ensures result == 0 && old(OnTrack()) ==> OnTrack()
      // what is sent, copied and fetched in parts; sending the file whole leaves the upload alone
      ensures |local| <= m ==> unchanged(info)
      ensures m < |local| ==> Demands(old(info.requests), info.requests, old(untreated.list), old(info.uploadList),
                                      |local|, m, useCopy, result == 0)
      ensures m < |local| ==> FetchesFor(old(pagelist.Statuses()), sizeOrgmeta, old(untreated.list),
                                         old(info.uploadList), m, useCopy, result == 0, pagelist.Statuses())
      ensures old(OnlyListed(info.pending, info.uploadList)) ==> info.overtakes == old(info.overtakes)
    {
      if pagelist.Size() <= m {
        result := FlushWhole(m, reliable);
      } else {
        result := FlushParts(m, useCopy, room, failure, reliable);
      }
    }

    method FlushParts(m: int, useCopy: bool, room: bool, failure: int, reliable: bool) returns (result: int)
      requires Valid() && MIN_MULTIPART_SIZE <= m < |local| && Streaming(m)
               && (room || !NoneModified(pagelist.Statuses()))
      modifies this, pagelist, untreated, info
      ensures Valid() && Content() == old(Content()) && |local| == old(|local|) && sizeOrgmeta == old(sizeOrgmeta)
      ensures pagelist.isShrink == (result != 0 && old(pagelist.isShrink))
      ensures result == 0 ==> remote == Content() && NoneModified(pagelist.Statuses()) && untreated.list == []
      ensures result == 0 ==> (IsAnchored() <==> |local| <= sizeOrgmeta) && Streaming(m) && OnTrack()
      ensures result != 0 ==> remote == old(remote) || remote == Content()
      // a failure in front of the launch forgets the cancelled blocks, one behind it all that was
      // written and uploaded (see RetryIff); the upload is in order exactly if that leaves no modified byte out
      ensures result != 0 ==> Loads(old(pagelist.Statuses()), false, pagelist.Statuses())
      ensures result != 0 ==>
                || (untreated.list == old(untreated.list)
                    && info.uploadList == UntouchedOf(old(info.uploadList), old(untreated.list)))
                || (untreated.list == [] && info.uploadList == [] && !info.uploading)
      ensures result != 0 ==> (Streaming(m) <==> Accounted(pagelist.Statuses(), untreated.list, info.uploadList))
      ensures result == 0 ==> |local| <= MAX_MULTIPART_CNT * m
      ensures reliable && room && old(CanSend(failure)) && |local| <= MAX_MULTIPART_CNT * m ==> result == 0
      // what is sent, copied and fetched
      ensures Demands(old(info.requests), info.requests, old(untreated.list), old(info.uploadList), |local|, m, useCopy,
                      result == 0)
      ensures FetchesFor(old(pagelist.Statuses()), sizeOrgmeta, old(untreated.list), old(info.uploadList), m, useCopy,
                         result == 0, pagelist.Statuses())
      ensures old(OnlyListed(info.pending, info.uploadList)) ==> info.overtakes == old(info.overtakes)
    {
      ghost var u, list := untreated.list, info.uploadList;
      var ok, ls, wait;
      ghost var plan;
      ok, ls, wait, plan := DivideFile(m, useCopy);
      if !ok {
        return -5;
      }
      result := FlushDivision(ls, wait, room, failure, reliable, plan, u, list, m, useCopy);
    }

    /** A flush behind the division of the file. */
    method FlushDivision(ls: Lists, wait: bool, room: bool, failure: int, reliable: bool, ghost plan: seq<Planned>,
                         ghost u: seq<Part>, ghost list: seq<FilePart>, ghost m: int, ghost useCopy: bool)
      returns (result: int)
      requires Valid() && MIN_MULTIPART_SIZE <= m < |local| && untreated.list == u
      requires room || !NoneModified(pagelist.Statuses())
      requires StreamFor(pagelist.Statuses(), sizeOrgmeta, local, remote, u, list, info.pending, info.sent, m)
      requires Divides(ls, plan, u, |local|, m, useCopy) && info.uploadList == Keeps(plan) == UntouchedOf(list, u)
               && ls.cancel == TouchedOf(list, u) && |plan| == Ceil(|local|, m)
      requires (wait <==> ls.cancel != []) && GapsRight(plan, u, ls.cancel, m)
      modifies this`local, this`remote, pagelist, untreated, info
      ensures Valid() && Content() == old(Content()) && |local| == old(|local|)
      ensures pagelist.isShrink == (result != 0 && old(pagelist.isShrink))
      ensures result == 0 ==> remote == Content() && NoneModified(pagelist.Statuses()) && untreated.list == []
      ensures result == 0 ==> (IsAnchored() <==> |local| <= sizeOrgmeta) && Streaming(m) && OnTrack()
      ensures result != 0 ==> remote == old(remote) || remote == Content()
      ensures result != 0 ==> Loads(old(pagelist.Statuses()), false, pagelist.Statuses())
      ensures Demands(old(info.requests), info.requests, u, list, |local|, m, useCopy, result == 0)
      ensures FetchesFor(old(pagelist.Statuses()), sizeOrgmeta, u, list, m, useCopy, result == 0, pagelist.Statuses())
      ensures OnlyListed(old(info.pending), list) ==> info.overtakes == old(info.overtakes)
      ensures result != 0 ==>
                || (untreated.list == u && info.uploadList == old(info.uploadList))
                || (untreated.list == [] && info.uploadList == [] && !info.uploading)
      ensures result != 0 ==> (Streaming(m) <==> Accounted(pagelist.Statuses(), untreated.list, info.uploadList))
      ensures result == 0 ==> |local| <= MAX_MULTIPART_CNT * m
      ensures reliable && room && old(CanSend(failure)) && |local| <= MAX_MULTIPART_CNT * m ==> result == 0
    {
      ghost var st, log := pagelist.Statuses(), info.requests;
      result := FetchAndSend(ls, wait, room, failure, reliable, plan, u, list, m, useCopy);
      FlushDemands(ls, plan, u, list, |local|, m, useCopy, log, info.requests, result == 0);
      FlushFetches(ls, plan, u, list, |local|, m, useCopy, st, sizeOrgmeta, result == 0, pagelist.Statuses());
    }

    method FetchAndSend(ls: Lists, wait: bool, room: bool, failure: int, reliable: bool, ghost plan: seq<Planned>,
                        ghost u: seq<Part>, ghost list: seq<FilePart>, ghost m: int, ghost useCopy: bool)
      returns (result: int)
      requires Valid() && MIN_MULTIPART_SIZE <= m < |local| && untreated.list == u
      requires room || !NoneModified(pagelist.Statuses())
      requires StreamFor(pagelist.Statuses(), sizeOrgmeta, local, remote, u, list, info.pending, info.sent, m)
      requires Divides(ls, plan, u, |local|, m, useCopy) && info.uploadList == Keeps(plan) == UntouchedOf(list, u)
               && ls.cancel == TouchedOf(list, u) && |plan| == Ceil(|local|, m)
      requires wait <==> ls.cancel != []
      modifies this`local, this`remote, pagelist, untreated, info
      ensures Valid() && Content() == old(Content()) && |local| == old(|local|)
      ensures pagelist.isShrink == (result != 0 && old(pagelist.isShrink))
      ensures result == 0 ==> remote == Content() && NoneModified(pagelist.Statuses()) && untreated.list == []
      ensures result == 0 ==> (IsAnchored() <==> |local| <= sizeOrgmeta) && Streaming(m) && OnTrack()
      ensures result != 0 ==> remote == old(remote) || remote == Content()
      ensures result != 0 ==> Loads(old(pagelist.Statuses()), false, pagelist.Statuses())
      ensures Fetches(old(pagelist.Statuses()), sizeOrgmeta, ls.down, result == 0, pagelist.Statuses())
      ensures Asks(old(info.requests), info.requests, plan, result == 0)
      ensures OnlyListed(old(info.pending), list) ==> info.overtakes == old(info.overtakes)
      ensures result != 0 ==>
                || (untreated.list == u && info.uploadList == old(info.uploadList))
                || (untreated.list == [] && info.uploadList == [] && !info.uploading)
      ensures result != 0 ==> (Streaming(m) <==> Accounted(pagelist.Statuses(), untreated.list, info.uploadList))
      ensures result == 0 ==> |local| <= MAX_MULTIPART_CNT * m
      ensures reliable && room && old(CanSend(failure)) && |local| <= MAX_MULTIPART_CNT * m ==> result == 0
    {
      result := FetchForParts(ls.down, room, reliable, list, m);
      if result != 0 {
        return;
      }
      result := SendAndAdopt(ls, wait, failure, reliable, plan, u, list, m, useCopy);
    }

    /** Divides the file; the cancelled blocks leave the upload list. */
    method DivideFile(m: int, useCopy: bool) returns (ok: bool, ls: Lists, wait: bool, ghost plan: seq<Planned>)
      requires Valid() && MIN_MULTIPART_SIZE <= m && Streaming(m)
      modifies info`uploadList
      ensures ok && Valid() && |plan| == Ceil(|local|, m) && (wait <==> ls.cancel != [])
      ensures GapsRight(plan, untreated.list, ls.cancel, m)
      ensures Divides(ls, plan, untreated.list, |local|, m, useCopy)
      ensures info.uploadList == Keeps(plan) == UntouchedOf(old(info.uploadList), untreated.list)
      ensures ls.cancel == TouchedOf(old(info.uploadList), untreated.list)
      ensures old(info.OnTrack(|local|, 0)) ==> info.OnTrack(|local|, 0)
    {
      ok, ls, wait, plan := info.ExtractUploadPartsFromAllArea(untreated.list, m, pagelist.Size(), useCopy);
    }

    /** Fetches what the parts lack, and what the division left on the list stays in order. */
    method FetchForParts(down: seq<MpPart>, room: bool, reliable: bool, ghost list: seq<FilePart>, ghost m: int)
      returns (result: int)
      requires Valid() && Apart(down, |local|) && (room || !NoneModified(pagelist.Statuses())) && 0 < m
      requires info.uploadList == UntouchedOf(list, untreated.list)
      requires StreamFor(pagelist.Statuses(), sizeOrgmeta, local, remote, untreated.list, list, info.pending, info.sent,
                         m)
      modifies this`local, pagelist
      ensures Valid() && Content() == old(Content())
      ensures pagelist.isShrink == old(pagelist.isShrink)
      ensures Loads(old(pagelist.Statuses()), false, pagelist.Statuses()) && |local| == old(|local|)
      ensures result == 0 ==> PartsLoaded(down, pagelist.Statuses())
      ensures Fetches(old(pagelist.Statuses()), sizeOrgmeta, down, result == 0, pagelist.Statuses())
      ensures Fetches(old(pagelist.Statuses()), sizeOrgmeta, down, result == 0, Unmodified(pagelist.Statuses()))
      ensures Tracked(pagelist.Statuses(), sizeOrgmeta, untreated.list, list) && info.Right(local, remote, [])
      ensures Streaming(m) <==> Accounted(pagelist.Statuses(), untreated.list, info.uploadList)
      ensures room && reliable ==> result == 0
    {
      ghost var st, was, u := pagelist.Statuses(), local, untreated.list;
      result := FetchFor(down, room, reliable);
      FetchesParts(st, sizeOrgmeta, down, result == 0, pagelist.Statuses());
      StreamLoads(st, sizeOrgmeta, was, remote, u, list, info.pending, info.sent, m, pagelist.Statuses(), local);
      KeptRight(list, info.pending, info.sent, local, remote, u);
      RestStreams(pagelist.Statuses(), sizeOrgmeta, local, remote, u, list, info.pending, info.sent, m);
    }

    /** From the upload's start to the new object. */
    method SendAndAdopt(ls: Lists, wait: bool, failure: int, reliable: bool, ghost plan: seq<Planned>,
                        ghost u: seq<Part>, ghost list: seq<FilePart>, ghost m: int, ghost useCopy: bool)
      returns (result: int)
      requires Valid() && MIN_MULTIPART_SIZE <= m < |local| && untreated.list == u && Blocks(list, m)
      requires Divides(ls, plan, u, |local|, m, useCopy) && info.uploadList == Keeps(plan) == UntouchedOf(list, u)
               && ls.cancel == TouchedOf(list, u)
      requires Tracked(pagelist.Statuses(), sizeOrgmeta, u, list) && PartsLoaded(ls.down, pagelist.Statuses())
      requires info.Right(local, remote, []) && |plan| == Ceil(|local|, m) && (wait <==> ls.cancel != [])
      modifies this`remote, pagelist, untreated, info
      ensures Valid() && Content() == old(Content())
      ensures pagelist.isShrink == (result != 0 && old(pagelist.isShrink))
      ensures result == 0 ==> remote == Content() && NoneModified(pagelist.Statuses()) && untreated.list == []
      ensures result == 0 ==> (IsAnchored() <==> |local| <= sizeOrgmeta) && Streaming(m) && OnTrack()
      ensures result != 0 ==> remote == old(remote) || remote == Content()
      ensures pagelist.Statuses() ==
                if result == 0 then Unmodified(old(pagelist.Statuses())) else old(pagelist.Statuses())
      ensures Asks(old(info.requests), info.requests, plan, result == 0)
      ensures OnlyListed(old(info.pending), list) ==> info.overtakes == old(info.overtakes)
      ensures result != 0 ==>
                || (untreated.list == u && info.uploadList == old(info.uploadList))
                || (untreated.list == [] && info.uploadList == [] && !info.uploading)
      ensures result != 0 ==> (Streaming(m) <==> Accounted(pagelist.Statuses(), untreated.list, info.uploadList))
      ensures result == 0 ==> |local| <= MAX_MULTIPART_CNT * m
      ensures reliable && old(CanSend(failure)) && |local| <= MAX_MULTIPART_CNT * m ==> result == 0
    {
      var launched, reply;
      result, launched, reply := SendAndComplete(ls, wait, failure, reliable, plan, u, list, m, useCopy);
      if !launched {
        RestStreams(pagelist.Statuses(), sizeOrgmeta, local, remote, u, list, info.pending, info.sent, m);
        return;
      }
      result := FinishUpload(result, reply, m, reliable);
    }

    /** What comes behind the requests of an upload, whether they failed or not. */
    method FinishUpload(failed: int, reply: seq<byte>, ghost m: int, reliable: bool) returns (result: int)
      requires Valid() && info.instructCount == 0 && info.Right(local, remote, [])
               && (failed == 0 ==> reply == Content())
      modifies this`remote, pagelist, untreated, info
      ensures Valid() && Content() == old(Content()) && untreated.list == [] && info.uploadList == [] && !info.uploading
      ensures pagelist.isShrink == (result != 0 && old(pagelist.isShrink))
      ensures failed != 0 ==> result == failed && remote == old(remote)
      ensures info.requests == old(info.requests) && info.overtakes == old(info.overtakes)
      ensures failed == 0 ==> remote == Content() && OnTrack() && (reliable ==> result == 0)
      ensures result == 0 ==>
                && pagelist.Statuses() == Unmodified(old(pagelist.Statuses()))
                && NoneModified(pagelist.Statuses()) && (IsAnchored() <==> |local| <= sizeOrgmeta) && Streaming(m)
      ensures result != 0 ==>
                pagelist.Statuses() == old(pagelist.Statuses())
                    && (Streaming(m) <==> Accounted(pagelist.Statuses(), [], []))
    {
      untreated.ClearAll();
      info.ClearUploadInfo(false, local, remote, []);
      EmptyStreams(pagelist.Statuses(), sizeOrgmeta, local, remote, info.sent, m);
      result := failed;
      if result == 0 {
        result := AdoptObject(reply, m, reliable);
      }
    }

    /** The object was replaced; pending headers may still fail. */
    method AdoptObject(reply: seq<byte>, ghost m: int, reliable: bool) returns (result: int)
      requires Valid() && reply == Content() && untreated.list == []
      requires info.uploadList == [] && info.pending == [] && info.lastResult == 0
      modifies this`remote, pagelist
      ensures Valid() && Content() == old(Content()) && remote == Content()
      ensures pagelist.isShrink == (result != 0 && old(pagelist.isShrink))
      ensures result == 0 ==>
                && pagelist.Statuses() == Unmodified(old(pagelist.Statuses()))
                && NoneModified(pagelist.Statuses()) && (IsAnchored() <==> |local| <= sizeOrgmeta) && Streaming(m)
      ensures result != 0 ==>
                pagelist.Statuses() == old(pagelist.Statuses())
                    && (Streaming(m) <==> Accounted(pagelist.Statuses(), [], []))
      ensures OnTrack() && (reliable ==> result == 0)
    {
      ghost var st, previous := pagelist.Statuses(), remote;
      remote := reply;
      SoundReply(st, local, previous, sizeOrgmeta);
      result := Request(reliable);
      if result == 0 {
        pagelist.ClearAllModified();
        FlushedView(st, local, previous, sizeOrgmeta, sizeOrgmeta);
      }
      EmptyStreams(pagelist.Statuses(), sizeOrgmeta, local, remote, info.sent, m);
    }

    /** Sends the parts and asks for the object; the service builds it only if every listed part has
        an etag. */
    method SendAndComplete(ls: Lists, wait: bool, failure: int, reliable: bool, ghost plan: seq<Planned>,
                           ghost u: seq<Part>, ghost list: seq<FilePart>, ghost m: int, ghost useCopy: bool)
      returns (result: int, launched: bool, reply: seq<byte>)
      requires Valid() && MIN_MULTIPART_SIZE <= m < |local|
      requires Divides(ls, plan, u, |local|, m, useCopy) && info.uploadList == Keeps(plan) == UntouchedOf(list, u)
               && ls.cancel == TouchedOf(list, u)
      requires Tracked(pagelist.Statuses(), sizeOrgmeta, u, list) && PartsLoaded(ls.down, pagelist.Statuses())
      requires info.Right(local, remote, []) && |plan| == Ceil(|local|, m) && (wait <==> ls.cancel != [])
      modifies info
      ensures Valid() && (result == 0 ==> launched) && info.Right(local, remote, [])
      ensures if launched then info.instructCount == 0 else info.uploadList == old(info.uploadList)
      ensures Asks(old(info.requests), info.requests, plan, result == 0)
      ensures OnlyListed(old(info.pending), list) ==> info.overtakes == old(info.overtakes)
      ensures result == 0 ==> reply == Content()
      ensures result == 0 ==> |local| <= MAX_MULTIPART_CNT * m
      ensures reliable && old(CanSend(failure)) && |local| <= MAX_MULTIPART_CNT * m ==> result == 0
    {
      reply := [];
      result, launched := SendParts(ls, wait, failure, reliable, plan, u, list, m, useCopy);
      if result != 0 {
        return;
      }
      result, reply := Complete(reliable);
      if result != 0 {
        return;
      }
      FewParts(plan, m, info.sent, local, remote);
      StreamObject(ls, plan, u, list, m, useCopy, pagelist.Statuses(), local, remote, sizeOrgmeta, info.sent);
    }

    method SendParts(ls: Lists, wait: bool, failure: int, reliable: bool, ghost plan: seq<Planned>,
                     ghost u: seq<Part>, ghost list: seq<FilePart>, ghost m: int, ghost useCopy: bool)
      returns (result: int, launched: bool)
      requires Valid() && MIN_MULTIPART_SIZE <= m < |local|
      requires Divides(ls, plan, u, |local|, m, useCopy) && info.uploadList == Keeps(plan) == UntouchedOf(list, u)
               && ls.cancel == TouchedOf(list, u)
      requires Tracked(pagelist.Statuses(), sizeOrgmeta, u, list)
      requires info.Right(local, remote, []) && |plan| == Ceil(|local|, m) && (wait <==> ls.cancel != [])
      modifies info
      ensures Valid() && (result == 0 ==> launched) && info.Right(local, remote, [])
      ensures if launched
              then info.instructCount == 0 && info.pending == [] && info.uploading && info.uploadList == PlanFiles(plan)
              else info.uploadList == old(info.uploadList)
      ensures Asks(old(info.requests), info.requests, plan, result == 0)
      ensures OnlyListed(old(info.pending), list) ==> info.overtakes == old(info.overtakes)
      ensures |plan| <= MAX_MULTIPART_CNT <==> |local| <= MAX_MULTIPART_CNT * m
      ensures reliable && old(CanSend(failure)) && |local| <= MAX_MULTIPART_CNT * m ==>
                result == 0 && AllSent(info.uploadList, info.sent)
    {
      if OnlyListed(info.pending, list) && !wait {
        AloneInFlight(ls, plan, u, list, info.pending, |local|, m, useCopy);
      }
      PlanWithin(ls, plan, u, list, m, useCopy, pagelist.Statuses(), local, remote, sizeOrgmeta);
      assert info.OnTrack(|local|, 0) ==> info.OnTrack(|local|, |remote|);
      result, launched := info.SendPlan(ls, wait, failure, local, remote, reliable, plan, m);
    }

    /** Asks the service to build the object; it does so only if every listed part has an etag. */
    method Complete(reliable: bool) returns (result: int, reply: seq<byte>)
      ensures result == 0 ==>
                AllSent(info.uploadList, info.sent) && reply == Assembled(info.uploadList, info.sent)
      ensures reliable && info.uploading && info.uploadList != [] && AllSent(info.uploadList, info.sent) ==> result == 0
    {
      var ok, etags := info.GetEtaglist();
      var refused := Request(reliable);
      if !ok || !AllFilled(etags) || refused != 0 {
        return -5, [];
      }
      return 0, Built(etags, info.sent);
    }

    /** Fetches what the parts lack. */
    method FetchFor(down: seq<MpPart>, room: bool, reliable: bool) returns (result: int)
      requires Valid() && Apart(down, |local|) && (room || !NoneModified(pagelist.Statuses()))
      modifies this`local, pagelist
      ensures Valid() && Content() == old(Content()) && (old(IsAnchored()) ==> IsAnchored())
      ensures pagelist.isShrink == old(pagelist.isShrink)
      ensures Loads(old(pagelist.Statuses()), false, pagelist.Statuses())
      ensures LeavesCached(old(pagelist.Statuses()), sizeOrgmeta, old(local), local)
      ensures result == 0 ==> PartsLoaded(down, pagelist.Statuses())
      ensures SameBut(old(pagelist.Statuses()), down, pagelist.Statuses())
      ensures room && reliable ==> result == 0
    {
      result := 0;
      if down != [] {
        var ok := ReserveDiskSpace(room);
        if !ok {
          return -28;
        }
        result := LoadParts(down, reliable);
      }
    }

    method FlushWhole(m: int, reliable: bool) returns (result: int)
      requires Valid() && 0 < m && Streaming(m)
      modifies this, pagelist, untreated
      ensures Valid() && Content() == old(Content()) && |local| == old(|local|)
      ensures pagelist.isShrink == (result != 0 && old(pagelist.isShrink))
      ensures result == 0 ==> remote == Content() && NoneModified(pagelist.Statuses()) && untreated.list == []
      ensures result == 0 ==> sizeOrgmeta == |local| && IsAnchored()
      // the uploaded blocks stay on the list, what was written since does not
      ensures result == 0 ==>
                (Streaming(m) <==> info.Right(local, remote, []) && LoadedIn(pagelist.Statuses(), info.uploadList))
      ensures result == 0 && Intact(old(pagelist.Statuses()), old(untreated.list), info.uploadList) ==> Streaming(m)
      ensures result != 0 ==> remote == old(remote)
      ensures result != 0 && untreated.list == old(untreated.list) ==> Streaming(m)
      ensures reliable ==> result == 0
    {
      ghost var first := pagelist.Statuses();
      var reply;
      result, reply := SendWhole(reliable);
      if result != 0 {
        return;
      }
      result := ReplaceWhole(reply, reliable, m, first);
    }

    method ReplaceWhole(reply: seq<byte>, reliable: bool, ghost m: int, ghost first: seq<Status>) returns (result: int)
      requires Valid() && 0 < m && Streaming(m) && reply == Content()
      requires NoGap(pagelist.Statuses(), 0, 0) && Loads(first, false, pagelist.Statuses())
      modifies this`remote, this`sizeOrgmeta, pagelist, untreated
      ensures Valid() && Content() == old(Content())
      ensures pagelist.isShrink == (result != 0 && old(pagelist.isShrink))
      ensures result == 0 ==> remote == Content() && NoneModified(pagelist.Statuses()) && untreated.list == []
      ensures result == 0 ==> sizeOrgmeta == |local| && IsAnchored()
      ensures result == 0 ==>
                (Streaming(m) <==> info.Right(local, remote, []) && LoadedIn(pagelist.Statuses(), info.uploadList))
      ensures result == 0 && Intact(first, old(untreated.list), info.uploadList) ==> Streaming(m)
      ensures result != 0 ==> remote == old(remote)
      ensures result != 0 && untreated.list == old(untreated.list) ==> Streaming(m)
      ensures reliable ==> result == 0
    {
      WholeStreams(first, pagelist.Statuses(), sizeOrgmeta, local, remote, untreated.list, info.uploadList,
                   info.pending, info.sent, m, reply);
      result := Replace(reply, 1, reliable);
    }
  }

  /** The answer to a request. */
  method Request(reliable: bool) returns (result: int)
    ensures reliable ==> result == 0
  {
    result := *;
    if reliable {
      result := 0;
    }
  }

  /** The answers to the requests of an upload by parts; the service knows no part number above its limit. */
  method SendRequests(parts: nat, reliable: bool) returns (result: int)
    ensures result == 0 ==> parts <= MAX_MULTIPART_CNT
    ensures reliable && parts <= MAX_MULTIPART_CNT ==> result == 0
  {
    result := Request(reliable);
    if MAX_MULTIPART_CNT < parts && result == 0 {
      result := -5;
    }
  }

  lemma NeedInObject(st: seq<Status>, local: seq<byte>, remote: seq<byte>, org: int, offset: int, bytes: int)
    requires Sound(st, local, remote, org) && AllGap(st, offset, bytes)
    ensures var need := NeedSize(offset, bytes, org);
            0 <= need <= bytes && (0 < need ==> offset + need <= |remote|)
  {
    var need := NeedSize(offset, bytes, org);
    if 0 < need { assert st[offset + need - 1] == GAP; }
  }

  ghost predicate NoGap(st: seq<Status>, start: nat, size: nat) {
    forall i :: 0 <= i < |st| && InRange(i, start, size, |st|) ==> st[i] != GAP
  }

  /** list is what GetUnloadedPages found. */
  ghost predicate GapsIn(st: seq<Status>, list: seq<Page>, start: nat, size: nat) {
    && Laid(list) && Positive(list) && 0 <= SizeOf(list) <= |st|
    && forall b :: Hit(list, b) <==> 0 <= b < |st| && InRange(b, start, size, |st|) && st[b] == GAP
  }

  /** The first k areas are loaded, everything else is as before. */
  ghost predicate LoadedUpTo(st: seq<Status>, list: seq<Page>, k: int, st': seq<Status>) {
    && 0 <= k <= |list| && |st'| == |st|
    && forall i :: 0 <= i < |st| ==> if Hit(list[..k], i) then st'[i] != GAP else st'[i] == st[i]
  }

  lemma NoneLoaded(st: seq<Status>, list: seq<Page>)
    ensures LoadedUpTo(st, list, 0, st)
  {
  }

  lemma NextGap(st: seq<Status>, list: seq<Page>, k: nat, st': seq<Status>, start: nat, size: nat)
    requires GapsIn(st, list, start, size) && k < |list| && LoadedUpTo(st, list, k, st')
    ensures AllGap(st', list[k].offset, list[k].bytes) && 0 < list[k].bytes
    ensures size != 0 ==> list[k].offset < start + size
  {
    LaidIndex(list, k);
    forall i | list[k].offset <= i < list[k].offset + list[k].bytes
      ensures st'[i] == GAP && InRange(i, start, size, |st|)
    {
      assert list[k].Covers(i) && Hit(list, i);
      if j :| 0 <= j < k && list[..k][j].Covers(i) { LaidOrder(list, j, k); }
      assert !Hit(list[..k], i);
    }
    assert InRange(list[k].offset, start, size, |st|);
  }

  lemma OneMoreLoaded(st: seq<Status>, list: seq<Page>, k: nat, mid: seq<Status>, st': seq<Status>, isModified: bool)
    requires k < |list| && LoadedUpTo(st, list, k, mid) && AllGap(mid, list[k].offset, list[k].bytes)
    requires st' == Overlay(mid, list[k].offset, list[k].bytes, Status(true, isModified))
    ensures LoadedUpTo(st, list, k + 1, st')
  {
    assert list[..k + 1] == list[..k] + [list[k]];
    HitPush(list[..k], list[k]);
  }

  lemma AllLoaded(st: seq<Status>, list: seq<Page>, st': seq<Status>, start: nat, size: nat)
    requires GapsIn(st, list, start, size) && LoadedUpTo(st, list, |list|, st')
    ensures NoGap(st', start, size) && SameElsewhere(st, start, size, st')
  {
    assert list[..|list|] == list;
  }

  /** Nothing changes outside [start, start + size). */
  ghost predicate SameElsewhere(st: seq<Status>, start: nat, size: nat, st': seq<Status>) {
    |st'| == |st| && forall i :: 0 <= i < |st| && !InRange(i, start, size, |st|) ==> st'[i] == st[i]
  }

  lemma OnlyGaps(st: seq<Status>, list: seq<Page>, k: nat, st': seq<Status>, start: nat, size: nat)
    requires GapsIn(st, list, start, size) && LoadedUpTo(st, list, k, st')
    ensures SameElsewhere(st, start, size, st')
  {
    HitPrefix(list, k);
  }

  // ---- what a stream upload keeps track of

  lemma TrackedLoads(st: seq<Status>, org: int, u: seq<Part>, list: seq<FilePart>, st': seq<Status>)
    requires Tracked(st, org, u, list) && Loads(st, false, st')
    ensures Tracked(st', org, u, list)
  {
    forall i | 0 <= i < |st'|
      ensures st'[i].modified ==> Holds(u, i) || InFiles(list, i)
      ensures Holds(u, i) || InFiles(list, i) ==> !Remote(st', org, i)
    {
    }
  }

  lemma RightLoads(list: seq<FilePart>, pending: seq<FilePart>, sent: map<int, seq<byte>>, local: seq<byte>,
                   remote: seq<byte>, u: seq<Part>, st: seq<Status>, org: int, local': seq<byte>)
    requires RightFor(list, pending, sent, local, remote, u) && Tracked(st, org, u, list)
             && LeavesCached(st, org, local, local')
    requires forall p :: p in list ==> 0 <= p.start
    ensures RightFor(list, pending, sent, local', remote, u)
  {
    forall p | p in list ensures Awaits(pending, p) || Arrived(p, pending, sent, local', remote, u) {
      forall i | p.start <= i < p.start + p.size ensures 0 <= i < |local| && local'[i] == local[i] {
        assert p.Covers(i);
        assert InFiles(list, i) && p.start + p.size <= |st|;
        assert !Remote(st, org, i);
      }
    }
  }

  lemma BlocksPlace(list: seq<FilePart>, m: int)
    requires Blocks(list, m) && 0 < m
    ensures forall p :: p in list ==> 0 <= p.start
  {
    forall p | p in list ensures 0 <= p.start { MulLe(0, p.partNum - 1, m); }
  }

  lemma TrackedWrite(st: seq<Status>, org: int, u: seq<Part>, list: seq<FilePart>, start: nat, n: nat, flags: Status,
                     u': seq<Part>)
    requires Tracked(st, org, u, list) && start <= |st| && flags.modified
    requires if 0 < n then Adds(u, start, n, u') else u' == u
    ensures Tracked(Overlay(st, start, n, flags), org, u', list)
  {
    var st' := Overlay(st, start, n, flags);
    forall i | 0 <= i < |st'|
      ensures st'[i].modified ==> Holds(u', i) || InFiles(list, i)
      ensures Holds(u', i) || InFiles(list, i) ==> !Remote(st', org, i)
    {
      assert start <= i < start + n ==> Holds(u', i);
    }
  }

  /** A write may pass a worker that is reading: the bytes it changes are untreated from then on. */
  lemma RightWrite(list: seq<FilePart>, pending: seq<FilePart>, sent: map<int, seq<byte>>, local: seq<byte>,
                   remote: seq<byte>, u: seq<Part>, start: nat, n: nat, local': seq<byte>, u': seq<Part>)
    requires RightFor(list, pending, sent, local, remote, u)
    requires if 0 < n then Adds(u, start, n, u') else u' == u
    requires |local| <= |local'| && forall i :: 0 <= i < |local| && !(start <= i < start + n) ==> local'[i] == local[i]
    ensures RightFor(list, pending, sent, local', remote, u')
  {
    forall p | p in list ensures Awaits(pending, p) || Arrived(p, pending, sent, local', remote, u') {
      if Arrived(p, pending, sent, local, remote, u) && p.partNum in sent {
        var data := sent[p.partNum];
        forall b | p.start <= b < p.start + p.size && !Holds(u', b)
          ensures data[b - p.start] == (if p.isCopy then remote else local')[b]
        {
          assert !Holds(u, b);
        }
      }
    }
  }

  /** A background upload only moves bytes from the untreated list to the uploaded blocks. */
  lemma TrackedBoundary(st: seq<Status>, org: int, u: seq<Part>, list: seq<FilePart>, lo: int, n: nat, m: int,
                        u': seq<Part>, list': seq<FilePart>)
    requires Tracked(st, org, u, list) && Blocks(list, m) && 1 <= lo && 0 < n && 0 < m
    requires Relaunched(list, lo, lo + n - 1, m, list') && Removes(u, (lo - 1) * m, n * m, u')
    requires forall x :: (lo - 1) * m <= x < (lo - 1) * m + n * m ==> Holds(u, x)
    ensures Tracked(st, org, u', list')
  {
    forall i ensures Holds(u', i) || InFiles(list', i) <==> Holds(u, i) || InFiles(list, i) {
      BoundaryConserves(list, lo, n, m, list', u, u', i);
    }
    forall p | p in list' ensures p.start + p.size <= |st| {
      if !(p in list) {
        InStretch(p.partNum, lo, n, m);
        assert Holds(u, p.start + p.size - 1);
      }
    }
  }

  lemma TrackedMoved(st: seq<Status>, org: int, u: seq<Part>, tag: int, list: seq<FilePart>, m: int, u': seq<Part>,
                     list': seq<FilePart>)
    requires Tracked(st, org, u, list) && Blocks(list, m) && 0 < m && Separate(u)
    requires BoundaryMoved(u, tag, m, list, u', list')
    ensures Tracked(st, org, u', list')
  {
    var k := FindTag(u, tag);
    if k < |u| {
      var lo, n := FirstBlock(u[k].start, m), BlockCount(u[k].start, u[k].size, m);
      StretchHeld(u, k, m);
      if 0 < n {
        TrackedBoundary(st, org, u, list, lo, n, m, u', list');
      }
    }
  }

  /** The aligned stretch of a part is untreated. */
  lemma StretchHeld(u: seq<Part>, k: nat, m: int)
    requires Separate(u) && k < |u| && 0 < m
    ensures var lo, n := FirstBlock(u[k].start, m), BlockCount(u[k].start, u[k].size, m);
            && 1 <= lo && 0 <= n
            && (0 < n ==> forall x :: (lo - 1) * m <= x < (lo - 1) * m + n * m ==> Holds(u, x))
  {
    var lo, n := FirstBlock(u[k].start, m), BlockCount(u[k].start, u[k].size, m);
    LargestAligned(u[k].start, u[k].size, m, lo);
    LargestAligned(u[k].start, u[k].size, m, lo + n - 1);
    assert (lo - 1) * m + n * m == (lo + n - 1) * m;
    forall x | (lo - 1) * m <= x < (lo - 1) * m + n * m && 0 < n ensures Holds(u, x) {
      HoldsAt(u, k, x);
    }
  }

  ghost predicate NoFlag(ps: seq<Page>) {
    forall k :: 0 <= k < |ps| ==> !ps[k].st.modified
  }

  lemma NoPageModifiedIff(ps: seq<Page>)
    requires WellFormed(ps) && 0 <= SizeOf(ps)
    ensures NoneModified(Flat(ps)) && 0 < SizeOf(ps) ==> forall k :: 0 <= k < |ps| ==> !ps[k].st.modified
    ensures (forall k :: 0 <= k < |ps| ==> !ps[k].st.modified) ==> NoneModified(Flat(ps))
  {
    if forall k :: 0 <= k < |ps| ==> !ps[k].st.modified { NoPageModified(ps); }
    if NoneModified(Flat(ps)) && 0 < SizeOf(ps) {
      ModifiedBytes(ps);
    }
  }

  /** An unmodified file is the head of the object, and all of it if it is no shorter. */
  lemma CleanView(st: seq<Status>, local: seq<byte>, remote: seq<byte>, org: int)
    requires Sound(st, local, remote, org) && NoneModified(st) && |remote| <= |local|
    ensures View(st, local, remote, org) == remote
  {
    var v := View(st, local, remote, org);
    forall i | 0 <= i < |v| ensures i < |remote| && v[i] == remote[i] {
      assert !st[i].modified;
    }
    if v != [] {
      var last := |v| - 1;
      assert !st[last].modified;
      assert last < |remote|;
    }
  }

  lemma NoPageModified(ps: seq<Page>)
    requires WellFormed(ps) && forall k :: 0 <= k < |ps| ==> !ps[k].st.modified
    ensures 0 <= SizeOf(ps) && NoneModified(Flat(ps))
  {
    WellFormedLaid(ps);
    if 0 < SizeOf(ps) { ModifiedBytes(ps); }
  }

  /** Reading size bytes at start; less at the end of the file. */
  function Slice(v: seq<byte>, start: nat, size: nat): (r: seq<byte>)
    ensures |r| == if |v| <= start then 0 else if start + size <= |v| then size else |v| - start
    ensures forall k :: 0 <= k < |r| ==> r[k] == v[start + k]
  {
    if |v| <= start then [] else if start + size <= |v| then v[start..start + size] else v[start..]
  }

  /** The cache file has the bytes of the range. */
  lemma SameSlice(st: seq<Status>, local: seq<byte>, remote: seq<byte>, org: int, start: nat, size: nat)
    requires |st| == |local| && forall i :: start <= i < start + size && i < |st| ==> st[i] != GAP
    ensures Slice(local, start, size) == Slice(View(st, local, remote, org), start, size)
  {
    var v := View(st, local, remote, org);
    forall i | start <= i < start + size && i < |st| ensures v[i] == local[i] { assert st[i] != GAP; }
    if start < |v| {
      var stop := if start + size <= |v| then start + size else |v|;
      assert local[start..stop] == v[start..stop];
      assert stop == |v| ==> local[start..] == local[start..stop] && v[start..] == v[start..stop];
    }
  }

  lemma LoadedHere(st: seq<Status>, local: seq<byte>, remote: seq<byte>, org: int, start: nat, size: nat, loadSize: nat)
    requires |st| == |local| && size <= loadSize && (0 < size ==> NoGap(st, start, loadSize))
    ensures Slice(local, start, size) == Slice(View(st, local, remote, org), start, size)
  {
    forall i | start <= i < start + size && i < |st| ensures st[i] != GAP { assert InRange(i, start, loadSize, |st|); }
    SameSlice(st, local, remote, org, start, size);
  }

  /** In a range without a gap nothing counts as unloaded. */
  lemma CachedCounts(st: seq<Status>, start: nat, size: nat)
    ensures NoGap(st, start, size) ==> CountUnloaded(st, start, RangeEnd(start, size, |st|), 0) == 0
  {
    var stop := RangeEnd(start, size, |st|);
    if NoGap(st, start, size) && start <= stop {
      forall b | start <= b < stop ensures !Counts(st, start, stop, 0, b) { assert InRange(b, start, size, |st|); }
      CountRun(st, start, stop, 0, start, stop, false);
    }
  }

  lemma LoadedWider(st: seq<Status>, start: nat, size: nat, wider: nat)
    requires 0 < size <= wider && NoGap(st, start, size)
    ensures size == wider || |st| <= start + size ==> NoGap(st, start, wider)
  {
    forall i | 0 <= i < |st| && InRange(i, start, wider, |st|) && (size == wider || |st| <= start + size)
      ensures st[i] != GAP
    {
      assert InRange(i, start, size, |st|);
    }
  }

  lemma SameWider(st: seq<Status>, start: nat, size: nat, wider: nat, st': seq<Status>)
    requires size <= wider && (if 0 < size then SameElsewhere(st, start, size, st') else st' == st)
    ensures SameElsewhere(st, start, wider, st')
  {
    forall i | 0 <= i < |st| && !InRange(i, start, wider, |st|) ensures st'[i] == st[i] {
      assert 0 < size ==> !InRange(i, start, size, |st|);
    }
  }

  lemma NothingUnloaded(st: seq<Status>, local: seq<byte>, remote: seq<byte>, org: int, start: nat, size: nat)
    requires |st| == |local| && CountUnloaded(st, start, RangeEnd(start, size, |st|), 0) == 0
    ensures Slice(local, start, size) == Slice(View(st, local, remote, org), start, size)
    ensures NoGap(st, start, size)
  {
    forall i | start <= i < RangeEnd(start, size, |st|) && i < |st| ensures st[i] != GAP {
      CountPositive(st, start, RangeEnd(start, size, |st|), RangeEnd(start, size, |st|), i);
    }
    SameSlice(st, local, remote, org, start, size);
  }

  /** Nothing untreated or uploaded lies behind byte n. */
  ghost predicate InFile(u: seq<Part>, list: seq<FilePart>, n: int) {
    EndsBy(list, n) && forall b :: Holds(u, b) ==> b < n
  }

  lemma SameSize(st: seq<Status>, local: seq<byte>, n: nat)
    requires |st| == |local|
    ensures n == |st| ==> Sized(st, n, ZERO_FILLED) == st && Fitted(local, n) == local
  {
  }

  /** No byte that became part of the object by the larger size org' is untreated or uploaded but
      missing in the cache file. */
  ghost predicate KeptOff(st: seq<Status>, org: int, org': int, u: seq<Part>, list: seq<FilePart>) {
    forall i :: 0 <= i < |st| && org <= i < org' && st[i] == GAP ==> !Holds(u, i) && !InFiles(list, i)
  }

  lemma TrackedTruncate(st: seq<Status>, org: int, u: seq<Part>, list: seq<FilePart>, n: nat, size: int, org': int,
                        u': seq<Part>)
    requires Tracked(st, org, u, list) && 0 <= org <= |st| && org' <= n
    requires n == (if 0 <= size then size else |st|) && InFile(u, list, n)
    requires if 0 <= size && org < size then Adds(u, org, size - org, u') else u' == u
    ensures Tracked(Sized(st, n, ZERO_FILLED), org', u', list) <==> KeptOff(st, org, org', u', list)
  {
    var st' := Sized(st, n, ZERO_FILLED);
    forall i | 0 <= i < n
      ensures st'[i].modified ==> Holds(u', i) || InFiles(list, i)
      ensures i < |st| && i < org && (Holds(u', i) || InFiles(list, i)) ==> !Remote(st', org', i)
    {
      if i < |st| {
        assert st'[i] == st[i];
        assert Holds(u, i) || InFiles(list, i) ==> !Remote(st, org, i);
      } else {
        assert org <= i;
      }
    }
    forall b | Holds(u', b) ensures 0 <= b < n { assert Holds(u, b) ==> 0 <= b < n; }
    KeptOffIs(st, org, n, org', u', list);
  }

  lemma KeptOffIs(st: seq<Status>, org: int, n: nat, org': int, u': seq<Part>, list: seq<FilePart>)
    requires 0 <= org <= |st| && org' <= n
    ensures KeptOff(st, org, org', u', list) <==>
              forall i :: 0 <= i < n && org <= i && (Holds(u', i) || InFiles(list, i)) ==>
                    !Remote(Sized(st, n, ZERO_FILLED), org', i)
  {
    var st' := Sized(st, n, ZERO_FILLED);
    forall i | 0 <= i < n && org <= i ensures Remote(st', org', i) <==> i < |st| && i < org' && st[i] == GAP {
    }
  }

  lemma RightTruncate(list: seq<FilePart>, pending: seq<FilePart>, sent: map<int, seq<byte>>, local: seq<byte>,
                      remote: seq<byte>, u: seq<Part>, n: nat, u': seq<Part>)
    requires RightFor(list, pending, sent, local, remote, u) && EndsBy(list, n)
    requires forall p :: p in list ==> 0 <= p.start
    requires EndsBy(list, |local|) && forall b :: Holds(u, b) ==> Holds(u', b)
    ensures RightFor(list, pending, sent, Fitted(local, n), remote, u')
  {
    forall p | p in list ensures Awaits(pending, p) || Arrived(p, pending, sent, Fitted(local, n), remote, u') {
      if Arrived(p, pending, sent, local, remote, u) && p.partNum in sent {
        var data := sent[p.partNum];
        forall b | p.start <= b < p.start + p.size && !Holds(u', b)
          ensures data[b - p.start] == (if p.isCopy then remote else Fitted(local, n))[b]
        {
          assert !Holds(u, b);
        }
      }
    }
  }

  /** See FdEntity.Streaming. */
  ghost predicate StreamFor(st: seq<Status>, org: int, local: seq<byte>, remote: seq<byte>, u: seq<Part>,
                            list: seq<FilePart>, pending: seq<FilePart>, sent: map<int, seq<byte>>, m: int) {
    Tracked(st, org, u, list) && Blocks(list, m) && RightFor(list, pending, sent, local, remote, u)
  }

  lemma StreamWrite(st: seq<Status>, org: int, local: seq<byte>, remote: seq<byte>, u: seq<Part>,
                    list: seq<FilePart>, pending: seq<FilePart>, sent: map<int, seq<byte>>, m: int,
                    start: nat, n: nat, flags: Status, local': seq<byte>, u': seq<Part>)
    requires start <= |st| && flags.modified && (if 0 < n then Adds(u, start, n, u') else u' == u)
    requires |local| <= |local'| && forall i :: 0 <= i < |local| && !(start <= i < start + n) ==> local'[i] == local[i]
    ensures StreamFor(st, org, local, remote, u, list, pending, sent, m) ==>
            StreamFor(Overlay(st, start, n, flags), org, local', remote, u', list, pending, sent, m)
  {
    if StreamFor(st, org, local, remote, u, list, pending, sent, m) {
      TrackedWrite(st, org, u, list, start, n, flags, u');
      RightWrite(list, pending, sent, local, remote, u, start, n, local', u');
    }
  }

  lemma {:induction false} StreamGrow(st: seq<Status>, org: int, local: seq<byte>, remote: seq<byte>, u: seq<Part>,
                                      list: seq<FilePart>, pending: seq<FilePart>, sent: map<int, seq<byte>>, m: int,
                                      n: nat, u': seq<Part>)
    requires |local| == |st| < n && Adds(u, |st|, n - |st|, u')
    ensures StreamFor(st, org, local, remote, u, list, pending, sent, m) ==>
            StreamFor(Overlay(st, |st|, n - |st|, ZERO_FILLED), org, Fitted(local, n), remote, u', list, pending, sent,
                      m)
  {
    StreamWrite(st, org, local, remote, u, list, pending, sent, m, |st|, n - |st|, ZERO_FILLED, Fitted(local, n), u');
  }

  lemma StreamLoads(st: seq<Status>, org: int, local: seq<byte>, remote: seq<byte>, u: seq<Part>,
                    list: seq<FilePart>, pending: seq<FilePart>, sent: map<int, seq<byte>>, m: int, st': seq<Status>,
                        local': seq<byte>)
    requires StreamFor(st, org, local, remote, u, list, pending, sent, m) && 0 < m
    requires Loads(st, false, st') && LeavesCached(st, org, local, local')
    ensures StreamFor(st', org, local', remote, u, list, pending, sent, m)
  {
    TrackedLoads(st, org, u, list, st');
    BlocksPlace(list, m);
    RightLoads(list, pending, sent, local, remote, u, st, org, local');
  }

  lemma StreamTruncate(st: seq<Status>, org: int, local: seq<byte>, remote: seq<byte>, u: seq<Part>,
                       list: seq<FilePart>, pending: seq<FilePart>, sent: map<int, seq<byte>>, m: int,
                       n: nat, size: int, org': int, u': seq<Part>)
    requires |local| == |st| && 0 <= org <= |st| && org' <= n == (if 0 <= size then size else |st|)
    requires if 0 <= size && org < size then Adds(u, org, size - org, u') else u' == u
    ensures 0 < m && StreamFor(st, org, local, remote, u, list, pending, sent, m) ==>
              (StreamFor(Sized(st, n, ZERO_FILLED), org', Fitted(local, n), remote, u', list, pending, sent, m) <==>
               (0 <= size ==> InFile(u, list, size)) && KeptOff(st, org, org', u', list))
  {
    if 0 < m && StreamFor(st, org, local, remote, u, list, pending, sent, m) {
      if 0 <= size && Tracked(Sized(st, n, ZERO_FILLED), org', u', list) {
        forall b | Holds(u, b) ensures b < size { assert Holds(u', b); }
      }
      if 0 <= size ==> InFile(u, list, size) {
        TrackedTruncate(st, org, u, list, n, size, org', u');
        BlocksPlace(list, m);
        RightTruncate(list, pending, sent, local, remote, u, n, u');
      }
    }
  }

  lemma AnchoredOff(st: seq<Status>, org: int, org': int, u: seq<Part>, list: seq<FilePart>)
    ensures Anchored(st, org) || org' <= org ==> KeptOff(st, org, org', u, list)
  {
    forall i | 0 <= i < |st| && st[i] == GAP && Anchored(st, org) ensures i < org {
      assert !st[i].modified;
    }
  }

  lemma HitPrefix(areas: seq<Page>, k: nat)
    requires k <= |areas|
    ensures forall b :: Hit(areas[..k], b) ==> Hit(areas, b)
  {
    forall b | Hit(areas[..k], b) ensures Hit(areas, b) {
      var j :| 0 <= j < k && areas[..k][j].Covers(b);
      assert areas[j].Covers(b);
    }
  }

  lemma PunchStep(st: seq<Status>, local: seq<byte>, areas: seq<Page>, p: Page, st': seq<Status>, local': seq<byte>)
    requires Punched(st, local, areas, st', local') && 0 <= p.offset && 0 <= p.bytes && p.offset + p.bytes <= |st|
    ensures Punched(st, local, areas + [p], Overlay(st', p.offset, p.bytes, GAP),
                    Patched(local', p.offset, seq(p.bytes, i => 0)))
  {
    HitPush(areas, p);
  }

  /** The areas are in the cache file. */
  ghost predicate HitsLoaded(dl: seq<Page>, st: seq<Status>) {
    forall b :: 0 <= b < |st| && Hit(dl, b) ==> st[b] != GAP
  }

  lemma OneMoreHit(dl: seq<Page>, k: nat, st: seq<Status>, st': seq<Status>)
    requires k < |dl| && HitsLoaded(dl[..k], st) && Loads(st, true, st') && 0 <= dl[k].offset && 0 < dl[k].bytes
    requires NoGap(st', dl[k].offset, dl[k].bytes)
    ensures HitsLoaded(dl[..k + 1], st')
  {
    assert dl[..k + 1] == dl[..k] + [dl[k]];
    HitPush(dl[..k], dl[k]);
    forall b | 0 <= b < |st'| && Hit(dl[..k + 1], b) ensures st'[b] != GAP {
      if dl[k].Covers(b) { assert InRange(b, dl[k].offset, dl[k].bytes, |st'|); }
    }
  }

  /** Nothing changes outside the areas. */
  ghost predicate OnlyHits(st: seq<Status>, dl: seq<Page>, st': seq<Status>) {
    |st'| == |st| && forall i :: 0 <= i < |st| && !Hit(dl, i) ==> st'[i] == st[i]
  }

  lemma OnlyHit(st: seq<Status>, dl: seq<Page>, k: nat, mid: seq<Status>, st': seq<Status>)
    requires k < |dl| && OnlyHits(st, dl, mid) && 0 <= dl[k].offset && 0 < dl[k].bytes
    requires SameElsewhere(mid, dl[k].offset, dl[k].bytes, st')
    ensures OnlyHits(st, dl, st')
  {
    forall i | 0 <= i < |st| && !Hit(dl, i) ensures st'[i] == st[i] { assert !dl[k].Covers(i); }
  }

  /** What a mixed upload fetches lies between two bytes that it uploads although nobody wrote them. */
  ghost predicate HullLoaded(pages: seq<Page>, m: int, st: seq<Status>, st': seq<Status>)
    requires 0 < m
  {
    |st'| == |st| && forall b :: Came(st, st', b) ==> BetweenNeeded(pages, m, b)
  }

  ghost predicate BetweenNeeded(pages: seq<Page>, m: int, b: int)
    requires 0 < m
  {
    exists x, y :: x <= b <= y && Needed(pages, MixUploads(pages, m), x) && Needed(pages, MixUploads(pages, m), y)
  }

  lemma HullFetches(pages: seq<Page>, dl: seq<Page>, m: int, st: seq<Status>, st': seq<Status>)
    requires 0 < m && MixHull(pages, dl, MixUploads(pages, m)) && OnlyHits(st, dl, st')
    ensures HullLoaded(pages, m, st, st')
  {
    forall b | Came(st, st', b) ensures BetweenNeeded(pages, m, b) {
      assert Hit(dl, b);
      var x, y := dl[0].offset, dl[0].offset + dl[0].bytes - 1;
      assert x <= b <= y;
    }
  }

  lemma WholeLocal(st: seq<Status>, local: seq<byte>, remote: seq<byte>, org: int)
    requires |st| == |local| && NoGap(st, 0, 0)
    ensures View(st, local, remote, org) == local
  {
    forall i | 0 <= i < |st| ensures View(st, local, remote, org)[i] == local[i] {
      assert InRange(i, 0, 0, |st|);
    }
  }

  /** Raising sizeOrgmeta changes nothing when all bytes behind it are in the cache file. */
  lemma OrgView(st: seq<Status>, local: seq<byte>, remote: seq<byte>, org: int, org': int)
    requires Sound(st, local, remote, org) && org <= org' && (Anchored(st, org) || NoGap(st, 0, 0))
    ensures View(st, local, remote, org') == View(st, local, remote, org) && Sound(st, local, remote, org')
    ensures Anchored(st, org) ==> Anchored(st, org')
  {
    forall i | 0 <= i < |st| ensures Remote(st, org', i) <==> Remote(st, org, i) {
      assert InRange(i, 0, 0, |st|);
      assert Anchored(st, org) && st[i] == GAP ==> i < org;
    }
    assert View(st, local, remote, org') == View(st, local, remote, org);
  }

  ghost predicate PartsLoaded(down: seq<MpPart>, st: seq<Status>) {
    forall b :: 0 <= b < |st| && InMp(down, b) ==> st[b] != GAP
  }

  lemma {:induction false} ApartIndex(down: seq<MpPart>, stop: int, k: nat)
    requires Apart(down, stop) && k < |down|
    ensures 0 <= down[k].start && 0 < down[k].size
  {
    if k < |down| - 1 {
      ApartIndex(down[..|down| - 1], down[|down| - 1].start, k);
    } else {
      ApartLater(down[..k], down[k].start, down[k].start);
    }
  }

  lemma OneMorePart(down: seq<MpPart>, k: nat, st: seq<Status>, st': seq<Status>)
    requires k < |down| && PartsLoaded(down[..k], st) && Loads(st, false, st') && 0 <= down[k].start && 0 < down[k].size
    requires NoGap(st', down[k].start, down[k].size)
    ensures PartsLoaded(down[..k + 1], st')
  {
    assert down[..k + 1] == down[..k] + [down[k]];
    InMpPush(down[..k], down[k]);
    forall b | 0 <= b < |st'| && InMp(down[..k + 1], b) ensures st'[b] != GAP {
      if down[k].Covers(b) { assert InRange(b, down[k].start, down[k].size, |st'|); }
    }
  }

  /** Nothing changes outside the areas. */
  ghost predicate SameBut(st: seq<Status>, down: seq<MpPart>, st': seq<Status>) {
    |st'| == |st| && forall i :: 0 <= i < |st| && !InMp(down, i) ==> st'[i] == st[i]
  }

  lemma OnlyPart(st: seq<Status>, down: seq<MpPart>, k: nat, mid: seq<Status>, st': seq<Status>)
    requires k < |down| && SameBut(st, down, mid) && 0 <= down[k].start && 0 < down[k].size
    requires SameElsewhere(mid, down[k].start, down[k].size, st')
    ensures SameBut(st, down, st')
  {
    forall i | 0 <= i < |st| && !InMp(down, i) ensures st'[i] == st[i] {
      if down[k].Covers(i) { InMpMember(down, down[k], i); }
    }
  }

  ghost predicate OnlyListed(pending: seq<FilePart>, list: seq<FilePart>) {
    forall r :: r in pending ==> r in list
  }

  /** A background upload puts what it launches on the list and takes nothing off it for good. */
  lemma MovedListed(pending: seq<FilePart>, u: seq<Part>, tag: int, list: seq<FilePart>, m: int, u': seq<Part>,
                    list': seq<FilePart>)
    requires Separate(u) && 0 < m && Blocks(list, m) && BoundaryMoved(u, tag, m, list, u', list')
    ensures OnlyListed(pending, list) ==> OnlyListed(pending + FilesOf(BoundaryRun(u, tag, m), false), list')
  {
    var k := FindTag(u, tag);
    if k < |u| && 0 < BlockCount(u[k].start, u[k].size, m) {
      var lo, n := FirstBlock(u[k].start, m), BlockCount(u[k].start, u[k].size, m);
      forall r | r in FilesOf(BlockRun(lo, n, m), false) ensures r in list' {
        RunFiles(lo, n, m, r);
      }
    }
  }

  /** Where the area begins that a write adds: the bytes between the end of the file and its place count. */
  ghost function AddedFrom(size: int, start: int): int {
    if size < start then size else start
  }

  /** The statuses of a file that was filled up with zeros to byte n. */
  ghost function Filled(st: seq<Status>, n: nat): seq<Status> {
    if |st| < n then Overlay(st, |st|, n - |st|, ZERO_FILLED) else st
  }

  /** What is untreated or listed afterwards was before or lies in [lo, hi), and the other way round. */
  ghost predicate Gains(u: seq<Part>, list: seq<FilePart>, lo: int, hi: int, u': seq<Part>, list': seq<FilePart>) {
    forall b :: Holds(u', b) || InFiles(list', b) <==> Holds(u, b) || InFiles(list, b) || lo <= b < hi
  }

  lemma GainsMoved(u: seq<Part>, list: seq<FilePart>, lo: int, hi: int, mid: seq<Part>, tag: int, tag': int,
                   u': seq<Part>, list': seq<FilePart>)
    requires Extends(u, tag, lo, hi, mid, tag') && Gains(mid, list, 0, 0, u', list')
    ensures Gains(u, list, lo, hi, u', list')
  {
  }

  lemma GainsGrown(u: seq<Part>, list': seq<FilePart>, list: seq<FilePart>, lo: int, start: int, hi: int,
                   mid: seq<Part>, tag: int, tag': int, u': seq<Part>)
    requires lo <= start <= hi && Extends(u, tag, lo, start, mid, tag') && Gains(mid, list, start, hi, u', list')
    ensures Gains(u, list, lo, hi, u', list')
  {
  }

  /** A background upload only moves bytes from one list to the other. */
  lemma MovedGains(u: seq<Part>, tag: int, list: seq<FilePart>, m: int, u': seq<Part>, list': seq<FilePart>)
    requires Blocks(list, m) && 0 < m && Separate(u) && BoundaryMoved(u, tag, m, list, u', list')
    ensures Gains(u, list, 0, 0, u', list')
  {
    var k := FindTag(u, tag);
    if k < |u| {
      var lo, n := FirstBlock(u[k].start, m), BlockCount(u[k].start, u[k].size, m);
      StretchHeld(u, k, m);
      if 0 < n {
        forall b ensures Holds(u', b) || InFiles(list', b) <==> Holds(u, b) || InFiles(list, b) {
          BoundaryConserves(list, lo, n, m, list', u, u', b);
        }
      }
    }
  }

  /** [lo, hi) is added and belongs to the newest part then. An empty area is not added. */
  ghost predicate Extends(u: seq<Part>, tag: int, lo: int, hi: int, u': seq<Part>, tag': int) {
    if lo < hi then Adds(u, lo, hi - lo, u') && InNewest(u', tag', lo, hi) else u' == u && tag' == tag
  }

  /** Block p is complete once [lo, hi) is added to the untreated bytes: with the area it lies in one
      stretch of them. Behind an empty area the part written last is still the one before. */
  ghost predicate Due(u: seq<Part>, tag: int, lo: int, hi: int, m: int, p: FilePart) {
    if hi <= lo then WholeBlock(u, tag, m, p)
    else IsBlock(p, m) && forall b :: InHull(p, lo, hi, b) ==> Holds(u, b) || lo <= b < hi
  }

  ghost predicate InHull(p: FilePart, lo: int, hi: int, b: int) {
    (p.start <= b || lo <= b) && (b < p.start + p.size || b < hi)
  }

  /** p is listed and no byte of it is untreated. */
  ghost predicate OnItsWay(list: seq<FilePart>, u: seq<Part>, p: FilePart) {
    p in list && forall b :: p.Covers(b) ==> !Holds(u, b)
  }

  ghost predicate NoneDue(u: seq<Part>, tag: int, lo: int, hi: int, m: int) {
    forall p: FilePart :: !Due(u, tag, lo, hi, m, p)
  }

  /** If blocks can be sent, exactly those that are due are launched. */
  ghost predicate DueSent(u: seq<Part>, tag: int, lo: int, hi: int, m: int, sends: bool, log: seq<FilePart>,
                          log': seq<FilePart>, list': seq<FilePart>, u': seq<Part>) {
    && log <= log' && (forall p :: p in log'[|log|..] <==> sends && Due(u, tag, lo, hi, m, p))
    && (sends ==> forall p :: Due(u, tag, lo, hi, m, p) ==> OnItsWay(list', u', p))
  }

  ghost predicate WholeSent(u: seq<Part>, tag: int, m: int, sends: bool, log: seq<FilePart>,
                            log': seq<FilePart>, list': seq<FilePart>, u': seq<Part>) {
    && log <= log' && (forall p :: p in log'[|log|..] <==> sends && WholeBlock(u, tag, m, p))
    && (sends ==> forall p :: WholeBlock(u, tag, m, p) ==> OnItsWay(list', u', p))
  }

  lemma SentNewest(u: seq<Part>, tag: int, lo: int, hi: int, m: int, u': seq<Part>, tag': int, sends: bool,
                   log: seq<FilePart>, log': seq<FilePart>, list': seq<FilePart>, v: seq<Part>)
    requires Separate(u') && 0 < m && lo <= hi
    requires Extends(u, tag, lo, hi, u', tag')
    requires WholeSent(u', tag', m, sends, log, log', list', v)
    ensures NoneDue(u, tag, lo, hi, m) <==> NoneWhole(u', tag', m)
    ensures DueSent(u, tag, lo, hi, m, sends, log, log', list', v)
  {
    DueNewest(u, tag, lo, hi, m, u', tag');
    forall p ensures Due(u, tag, lo, hi, m, p) <==> WholeBlock(u', tag', m, p) {
    }
  }

  lemma SentGrown(u: seq<Part>, tag: int, lo: int, start: int, hi: int, m: int, u': seq<Part>, tag': int, sends: bool,
                  log: seq<FilePart>, log': seq<FilePart>, list': seq<FilePart>, v: seq<Part>)
    requires Separate(u') && 0 < m && lo <= start <= hi && Extends(u, tag, lo, start, u', tag')
    requires DueSent(u', tag', start, hi, m, sends, log, log', list', v)
    ensures NoneDue(u, tag, lo, hi, m) <==> NoneDue(u', tag', start, hi, m)
    ensures DueSent(u, tag, lo, hi, m, sends, log, log', list', v)
  {
    DueGrown(u, tag, lo, start, hi, m, u', tag');
    forall p ensures Due(u', tag', start, hi, m, p) <==> Due(u, tag, lo, hi, m, p) {
    }
  }

  /** Untreated bytes without a hole belong to one part. */
  lemma OnePart(u: seq<Part>, k: nat, lo: int, hi: int, x: int)
    requires Separate(u) && k < |u| && lo <= x < hi && u[k].Covers(x)
    requires forall b :: lo <= b < hi ==> Holds(u, b)
    ensures u[k].start <= lo && hi <= u[k].start + u[k].size
  {
    EdgeFree(u, k, u[k].start - 1);
    EdgeFree(u, k, u[k].start + u[k].size);
  }

  lemma EdgeFree(u: seq<Part>, k: nat, b: int)
    requires Separate(u) && k < |u| && (b == u[k].start - 1 || b == u[k].start + u[k].size)
    ensures !Holds(u, b)
  {
  }

  lemma DueNewest(u: seq<Part>, tag: int, lo: int, hi: int, m: int, u': seq<Part>, tag': int)
    requires Separate(u') && 0 < m && lo <= hi
    requires Extends(u, tag, lo, hi, u', tag')
    ensures forall p :: Due(u, tag, lo, hi, m, p) <==> WholeBlock(u', tag', m, p)
  {
    if lo < hi {
      var k := FindTag(u', tag');
      forall p ensures Due(u, tag, lo, hi, m, p) <==> WholeBlock(u', tag', m, p) {
        if Due(u, tag, lo, hi, m, p) {
          forall b | InHull(p, lo, hi, b) ensures Holds(u', b) {
          }
          OnePart(u', k, if p.start <= lo then p.start else lo, if hi <= p.start + p.size then p.start + p.size else hi,
                  lo);
        }
        if WholeBlock(u', tag', m, p) {
          forall b | InHull(p, lo, hi, b) ensures Holds(u, b) || lo <= b < hi { HoldsAt(u', k, b); }
        }
      }
    }
  }

  /** A gap that was filled first counts as part of the area. */
  lemma DueGrown(u: seq<Part>, tag: int, lo: int, start: int, hi: int, m: int, u': seq<Part>, tag': int)
    requires Separate(u') && 0 < m && lo <= start <= hi && Extends(u, tag, lo, start, u', tag')
    ensures forall p :: Due(u', tag', start, hi, m, p) <==> Due(u, tag, lo, hi, m, p)
  {
    if start == hi {
      DueNewest(u, tag, lo, hi, m, u', tag');
    } else if lo < start {
      forall p ensures Due(u', tag', start, hi, m, p) <==> Due(u, tag, lo, hi, m, p) {
        forall b ensures InHull(p, start, hi, b) ==> InHull(p, lo, hi, b) {
        }
        forall b ensures InHull(p, lo, hi, b) ==> InHull(p, start, hi, b) || lo <= b < start {
        }
      }
    }
  }

  lemma MovedWhole(u: seq<Part>, tag: int, list: seq<FilePart>, m: int, u': seq<Part>, list': seq<FilePart>)
    requires Separate(u) && 0 < m && BoundaryMoved(u, tag, m, list, u', list')
    ensures forall p :: WholeBlock(u, tag, m, p) ==> OnItsWay(list', u', p)
  {
    forall p | WholeBlock(u, tag, m, p) ensures OnItsWay(list', u', p) {
      var k := FindTag(u, tag);
      var lo, n := FirstBlock(u[k].start, m), BlockCount(u[k].start, u[k].size, m);
      BlockInside(u[k].start, u[k].size, m, p);
      InStretch(p.partNum, lo, n, m);
    }
  }

  /** Dropping the cache of an unmodified file does not change how many requests a flush needs. */
  lemma SameFits(ps: seq<Page>, qs: seq<Page>, m: int, copySize: int)
    requires WellFormed(ps) && WellFormed(qs) && 0 <= SizeOf(ps) == SizeOf(qs)
    requires MIN_MULTIPART_SIZE <= m && MIN_MULTIPART_SIZE <= copySize
    requires Flat(qs) == Flat(ps) || (NoneModified(Flat(ps)) && NoneModified(Flat(qs)))
    ensures MixFits(ps, m, copySize) <==> MixFits(qs, m, copySize)
    ensures SizeOf(ps) < MAX_MULTIPART_CNT * MIN_MULTIPART_SIZE ==> MixFits(qs, m, copySize)
  {
    WellFormedFixed(ps);
    WellFormedFixed(qs);
    FlagsDecide(ps, qs, m, copySize);
    SmallFits(ps, m, copySize);
  }

  /** Something counts as unloaded only where something is. */
  lemma GapLeft(st: seq<Status>)
    ensures NoGap(st, 0, 0) ==> CountUnloaded(st, 0, |st|, MIN_MULTIPART_SIZE) == 0
  {
    if NoGap(st, 0, 0) {
      forall b ensures !Counts(st, 0, |st|, MIN_MULTIPART_SIZE, b) { assert 0 <= b < |st| ==> InRange(b, 0, 0, |st|); }
      CountRun(st, 0, |st|, MIN_MULTIPART_SIZE, 0, |st|, false);
    }
  }

  lemma NothingHeld()
    ensures forall b :: !Holds([], b) && !InFiles([], b)
  {
  }

  // ---- what is left of an upload after a flush

  /** Every modified byte is untreated or in a listed block. */
  ghost predicate Accounted(st: seq<Status>, u: seq<Part>, list: seq<FilePart>) {
    forall i :: 0 <= i < |st| && st[i].modified ==> Holds(u, i) || InFiles(list, i)
  }

  ghost predicate LoadedIn(st: seq<Status>, list: seq<FilePart>) {
    forall i :: 0 <= i < |st| && InFiles(list, i) ==> st[i].loaded
  }

  /** No listed block was written since it was sent, and every byte of it is loaded. */
  ghost predicate Intact(st: seq<Status>, u: seq<Part>, list: seq<FilePart>) {
    TouchedOf(list, u) == [] && LoadedIn(st, list)
  }

  /** What the division leaves on the list is in order exactly if it left no modified byte out. */
  lemma RestStreams(st: seq<Status>, org: int, local: seq<byte>, remote: seq<byte>, u: seq<Part>,
                    list: seq<FilePart>, pending: seq<FilePart>, sent: map<int, seq<byte>>, m: int)
    requires Tracked(st, org, u, list) && Blocks(list, m)
    requires RightFor(UntouchedOf(list, u), pending, sent, local, remote, [])
    ensures StreamFor(st, org, local, remote, u, UntouchedOf(list, u), pending, sent, m) <==>
              Accounted(st, u, UntouchedOf(list, u))
  {
    var rest := UntouchedOf(list, u);
    TouchedSplit(list, u);
    MoreUntreated(rest, pending, sent, local, remote, u);
    forall i | 0 <= i < |st| && InFiles(rest, i) ensures !Remote(st, org, i) {
      assert InFiles(list, i);
    }
  }

  lemma MoreUntreated(list: seq<FilePart>, pending: seq<FilePart>, sent: map<int, seq<byte>>, local: seq<byte>,
                      remote: seq<byte>, u: seq<Part>)
    requires RightFor(list, pending, sent, local, remote, [])
    ensures RightFor(list, pending, sent, local, remote, u)
  {
    forall p | p in list ensures Awaits(pending, p) || Arrived(p, pending, sent, local, remote, u) {
      if Arrived(p, pending, sent, local, remote, []) && p.partNum in sent {
        var data := sent[p.partNum];
        forall b | p.start <= b < p.start + p.size && !Holds(u, b)
          ensures data[b - p.start] == (if p.isCopy then remote else local)[b]
        {
          assert !Holds([], b);
        }
      }
    }
  }

  /** The bytes a failure in front of the launch leaves out: those of cancelled blocks that were not
      written again. */
  lemma CancelLoses(st: seq<Status>, org: int, u: seq<Part>, list: seq<FilePart>, m: int)
    requires Tracked(st, org, u, list) && Blocks(list, m) && 0 < m
    ensures Accounted(st, u, UntouchedOf(list, u)) <==>
              forall i :: 0 <= i < |st| && st[i].modified && InFiles(TouchedOf(list, u), i) ==> Holds(u, i)
  {
    TouchedSplit(list, u);
    forall i ensures InFiles(list, i) <==> InFiles(TouchedOf(list, u), i) || InFiles(UntouchedOf(list, u), i) {
      ListedSplit(list, u, i);
    }
    forall i | InFiles(TouchedOf(list, u), i) ensures !InFiles(UntouchedOf(list, u), i) {
      if InFiles(UntouchedOf(list, u), i) {
        var p :| p in TouchedOf(list, u) && p.Covers(i);
        var q :| q in UntouchedOf(list, u) && q.Covers(i);
        OneBlock(list, m, p, q, i);
        assert false;
      }
    }
  }

  lemma OneBlock(list: seq<FilePart>, m: int, p: FilePart, q: FilePart, i: int)
    requires Blocks(list, m) && 0 < m && p in list && q in list && p.Covers(i) && q.Covers(i)
    ensures p == q
  {
    MulLe(p.partNum, q.partNum - 1, m);
    MulLe(q.partNum, p.partNum - 1, m);
    MulLe(p.partNum - 1, p.partNum, m);
    MulLe(q.partNum - 1, q.partNum, m);
  }

  lemma EmptyStreams(st: seq<Status>, org: int, local: seq<byte>, remote: seq<byte>, sent: map<int, seq<byte>>, m: int)
    ensures StreamFor(st, org, local, remote, [], [], [], sent, m) <==> Accounted(st, [], [])
  {
    NothingHeld();
  }

  /** Sending the file whole leaves the listed blocks in order exactly if they are right without an
      untreated list and were loaded. */
  lemma WholeStreams(first: seq<Status>, st: seq<Status>, org: int, local: seq<byte>, remote: seq<byte>, u: seq<Part>,
                     list: seq<FilePart>, pending: seq<FilePart>, sent: map<int, seq<byte>>, m: int, remote': seq<byte>)
    requires StreamFor(st, org, local, remote, u, list, pending, sent, m) && NoGap(st, 0, 0) && Loads(first, false, st)
    ensures StreamFor(Unmodified(st), |st|, local, remote', [], list, pending, sent, m) <==>
              RightFor(list, pending, sent, local, remote', []) && LoadedIn(Unmodified(st), list)
    ensures Intact(first, u, list) ==>
              RightFor(list, pending, sent, local, remote', []) && LoadedIn(Unmodified(st), list)
    ensures u == [] ==> StreamFor(st, |st|, local, remote, [], list, pending, sent, m)
  {
    var st' := Unmodified(st);
    forall i | 0 <= i < |st| && InFiles(list, i) ensures Remote(st', |st|, i) <==> !st'[i].loaded {
    }
    forall i | 0 <= i < |st| ensures !Remote(st, |st|, i) { assert InRange(i, 0, 0, |st|); }
    NothingHeld();
    if Intact(first, u, list) {
      UntouchedStays(list, pending, sent, local, remote, u);
      BlocksOnly(list, pending, sent, local, remote, m, remote');
    }
  }

  /** Blocks are sent from the cache file: the object does not matter to them. */
  lemma BlocksOnly(list: seq<FilePart>, pending: seq<FilePart>, sent: map<int, seq<byte>>, local: seq<byte>,
                   remote: seq<byte>, m: int, remote': seq<byte>)
    requires Blocks(list, m) && RightFor(list, pending, sent, local, remote, [])
    ensures RightFor(list, pending, sent, local, remote', [])
  {
    forall p | p in list ensures Awaits(pending, p) || Arrived(p, pending, sent, local, remote', []) {
      assert !p.isCopy;
    }
  }

  /** All parts of a division can be had: uploads end with the file, and what is copied is still in
      the object. */
  lemma PlanTaken(ls: Lists, plan: seq<Planned>, u: seq<Part>, list: seq<FilePart>, m: int, useCopy: bool,
                     st: seq<Status>, local: seq<byte>, remote: seq<byte>, org: int)
    requires Divides(ls, plan, u, |st|, m, useCopy) && Keeps(plan) == UntouchedOf(list, u)
             && ls.cancel == TouchedOf(list, u)
    requires Tracked(st, org, u, list) && Sound(st, local, remote, org) && |plan| <= MAX_MULTIPART_CNT
    ensures AreasTaken(ls.up, ls.copy, |local|, |remote|)
  {
    AreaNums(plan, Upload, m);
    AreaNums(plan, Copy, m);
    forall p | p in ls.up ensures Takes(FileOf(p, false), |local|, |remote|) {
      assert StandsFor(p, plan, Upload);
      InMpMember(ls.up, p, p.start + p.size - 1);
    }
    forall p | p in ls.copy ensures Takes(FileOf(p, true), |local|, |remote|) {
      assert StandsFor(p, plan, Copy);
      var b := p.start + p.size - 1;
      InMpMember(ls.copy, p, b);
      PlannedBelow(plan, Copy, m, b);
      DivisionMeaning(ls, plan, u, list, |st|, m, useCopy, b);
      assert !st[b].modified;
    }
  }

  // ---- what a flush asks for

  /** The requests of a plan. */
  ghost function PlanRequests(plan: seq<Planned>): seq<FilePart> {
    FilesOf(AreasOf(plan, Upload), false) + FilesOf(AreasOf(plan, Copy), true)
  }

  /** All of them were launched, or, unless done is set, none. */
  ghost predicate Asks(log: seq<FilePart>, log': seq<FilePart>, plan: seq<Planned>, done: bool) {
    (!done && log' == log) || log' == log + PlanRequests(plan)
  }

  /** A flush either launches nothing, and fails, or launches news: these requests and the blocks that
      are kept cover every byte of the file. Without useCopy no request is a copy; with it every upload
      has an untreated byte. */
  ghost predicate Demands(log: seq<FilePart>, log': seq<FilePart>, u: seq<Part>, list: seq<FilePart>, size: int,
                          m: int, useCopy: bool, done: bool) {
    && log <= log'
    && var news := log'[|log|..];
       if news == [] then !done || forall b :: 0 <= b < size ==> InFiles(UntouchedOf(list, u), b)
       else Covering(news, u, list, size) && Sparing(news, u, list, useCopy)
                && exists plan :: Dividing(plan, u, list, size, m) && news == PlanRequests(plan)
  }

  /** The requests cover exactly what is not kept. */
  ghost predicate Covering(news: seq<FilePart>, u: seq<Part>, list: seq<FilePart>, size: int) {
    forall b :: 0 <= b < size ==> (InFiles(news, b) <==> !InFiles(UntouchedOf(list, u), b))
  }

  /** What is copied was neither written nor uploaded; and with useCopy only what was written is uploaded. */
  ghost predicate Sparing(news: seq<FilePart>, u: seq<Part>, list: seq<FilePart>, useCopy: bool) {
    forall r :: r in news ==>
      if r.isCopy then useCopy && forall b :: r.Covers(b) ==> !Holds(u, b) && !InFiles(list, b)
      else useCopy ==> Touched(r, u)
  }

  /** A division of the file into parts of the right numbers, places and sizes. */
  ghost predicate Dividing(plan: seq<Planned>, u: seq<Part>, list: seq<FilePart>, size: int, m: int) {
    && 0 <= size && 0 < m && Tiling(plan, m) && EndOf(plan) == size && |plan| == Ceil(size, m)
    && Keeps(plan) == UntouchedOf(list, u)
    && GapsRight(plan, u, TouchedOf(list, u), m)
  }

  /** b was fetched. */
  ghost predicate Came(st: seq<Status>, st': seq<Status>, b: int) {
    0 <= b < |st| == |st'| && !st[b].loaded && st'[b].loaded
  }

  ghost predicate Fetches(st: seq<Status>, org: int, down: seq<MpPart>, done: bool, st': seq<Status>) {
    && |st'| == |st| && (forall b :: Came(st, st', b) ==> InMp(down, b))
    && (done ==> forall b :: 0 <= b < |st| && Remote(st, org, b) && InMp(down, b) ==> st'[b].loaded)
  }

  /** Only bytes that nobody wrote or uploaded are fetched, and with useCopy only where something was
      written in their block. Without useCopy all of them are. */
  ghost predicate FetchesFor(st: seq<Status>, org: int, u: seq<Part>, list: seq<FilePart>, m: int, useCopy: bool,
                             done: bool, st': seq<Status>) {
    && 0 < m && |st'| == |st|
    && (forall b :: Came(st, st', b) ==> !Holds(u, b) && !InFiles(list, b) && (useCopy ==> WrittenNear(u, b, m)))
    && (done && !useCopy ==> forall b :: 0 <= b < |st| && Remote(st, org, b) ==> st'[b].loaded)
  }

  /** The block of byte b has an untreated byte. */
  ghost predicate WrittenNear(u: seq<Part>, b: int, m: int)
    requires 0 < m
  {
    exists x :: b / m * m <= x < b / m * m + m && Holds(u, x)
  }

  lemma FetchesParts(st: seq<Status>, org: int, down: seq<MpPart>, done: bool, st': seq<Status>)
    requires SameBut(st, down, st') && Loads(st, false, st') && (done ==> PartsLoaded(down, st'))
    ensures Fetches(st, org, down, done, st') && Fetches(st, org, down, done, Unmodified(st'))
  {
  }

  /** Without a cancelled block what is in flight is kept, and the plan has other numbers for its requests. */
  lemma AloneInFlight(ls: Lists, plan: seq<Planned>, u: seq<Part>, list: seq<FilePart>, pending: seq<FilePart>,
                      size: int, m: int, useCopy: bool)
    requires Divides(ls, plan, u, size, m, useCopy) && Keeps(plan) == UntouchedOf(list, u)
    requires TouchedOf(list, u) == [] && OnlyListed(pending, list)
    ensures NoneInFlight(pending, ls.up + ls.copy)
  {
    PlanNew(plan, m);
    TouchedSplit(list, u);
    var all := ls.up + ls.copy;
    forall i, j | 0 <= i < |all| && 0 <= j < |pending| ensures pending[j].partNum != all[i].partNum {
      assert pending[j] in pending;
      assert !Listed(Keeps(plan), all[i].partNum);
    }
  }

  lemma FlushDemands(ls: Lists, plan: seq<Planned>, u: seq<Part>, list: seq<FilePart>, size: int, m: int, useCopy: bool,
                    log: seq<FilePart>, log': seq<FilePart>, done: bool)
    requires Divides(ls, plan, u, size, m, useCopy) && Keeps(plan) == UntouchedOf(list, u) && 0 <= size && 0 < m
    requires ls.cancel == TouchedOf(list, u) && GapsRight(plan, u, ls.cancel, m) && |plan| == Ceil(size, m)
    requires Asks(log, log', plan, done)
    ensures Demands(log, log', u, list, size, m, useCopy, done)
  {
    var news := PlanRequests(plan);
    forall b | 0 <= b < size ensures InFiles(news, b) <==> !InFiles(UntouchedOf(list, u), b) {
      OneKind(plan, m, b);
      PlanBytes(plan, b);
    }
    assert Dividing(plan, u, list, size, m);
    FlushSpares(ls, plan, u, list, size, m, useCopy);
  }

  lemma PlanBytes(plan: seq<Planned>, b: int)
    ensures InFiles(PlanRequests(plan), b) <==> InMp(AreasOf(plan, Upload), b) || InMp(AreasOf(plan, Copy), b)
  {
    var up, copy := AreasOf(plan, Upload), AreasOf(plan, Copy);
    FilesNumbers(up, false);
    FilesNumbers(copy, true);
    FilesBytes(up, false, b);
    FilesBytes(copy, true, b);
  }

  lemma {:induction false} FilesBytes(ps: seq<MpPart>, isCopy: bool, b: int)
    ensures InFiles(FilesOf(ps, isCopy), b) <==> InMp(ps, b)
  {
    if ps != [] {
      var front, p := ps[..|ps| - 1], ps[|ps| - 1];
      FilesBytes(front, isCopy, b);
      assert ps == front + [p];
      InMpPush(front, p);
      InFilesPush(FilesOf(front, isCopy), FileOf(p, isCopy));
    }
  }

  lemma FlushSpares(ls: Lists, plan: seq<Planned>, u: seq<Part>, list: seq<FilePart>, size: int, m: int, useCopy: bool)
    requires Divides(ls, plan, u, size, m, useCopy) && Keeps(plan) == UntouchedOf(list, u)
    requires ls.cancel == TouchedOf(list, u)
    ensures Sparing(PlanRequests(plan), u, list, useCopy)
  {
    FilesNumbers(ls.up, false);
    FilesNumbers(ls.copy, true);
    forall r | r in FilesOf(ls.copy, true)
      ensures useCopy && forall b :: r.Covers(b) ==> !Holds(u, b) && !InFiles(list, b)
    {
      var i :| 0 <= i < |ls.copy| && FilesOf(ls.copy, true)[i] == r;
      forall b | r.Covers(b) ensures !Holds(u, b) && !InFiles(list, b) {
        InMpMember(ls.copy, ls.copy[i], b);
        PlannedBelow(plan, Copy, m, b);
        DivisionMeaning(ls, plan, u, list, size, m, useCopy, b);
      }
    }
    forall r | r in FilesOf(ls.up, false) && useCopy ensures Touched(r, u) {
      var i :| 0 <= i < |ls.up| && FilesOf(ls.up, false)[i] == r;
      assert !NoneIn(u, ls.up[i].start, ls.up[i].start + ls.up[i].size);
      var b :| r.start <= b < r.start + r.size && Holds(u, b);
      assert r.Covers(b);
    }
  }

  lemma BlockOf(b: int, k: int, m: int)
    requires 0 < m && k * m <= b < (k + 1) * m
    ensures b / m == k && b / m * m + m == (k + 1) * m
  {
    DivUnique(b, k, b - k * m, m);
  }

  lemma FlushFetches(ls: Lists, plan: seq<Planned>, u: seq<Part>, list: seq<FilePart>, size: int, m: int, useCopy: bool,
                    st: seq<Status>, org: int, done: bool, st': seq<Status>)
    requires Divides(ls, plan, u, size, m, useCopy) && Keeps(plan) == UntouchedOf(list, u)
    requires ls.cancel == TouchedOf(list, u) && |st| == size && 0 < m
    requires Fetches(st, org, ls.down, done, st')
    requires forall b :: 0 <= b < size && (Holds(u, b) || InFiles(list, b)) ==> !Remote(st, org, b)
    ensures FetchesFor(st, org, u, list, m, useCopy, done, st')
  {
    forall b | Came(st, st', b)
      ensures !Holds(u, b) && !InFiles(list, b) && (useCopy ==> WrittenNear(u, b, m))
    {
      DivisionMeaning(ls, plan, u, list, size, m, useCopy, b);
      ListedSplit(list, u, b);
      if useCopy { UploadNear(plan, u, m, b); }
    }
    if done && !useCopy {
      forall b | 0 <= b < size && Remote(st, org, b) ensures st'[b].loaded {
        DivisionMeaning(ls, plan, u, list, size, m, useCopy, b);
        ListedSplit(list, u, b);
        assert !InMp([], b);
      }
    }
  }

  lemma {:induction false} UploadNear(plan: seq<Planned>, u: seq<Part>, m: int, b: int)
    requires Tiling(plan, m) && 0 < m && AllWritten(AreasOf(plan, Upload), u) && InMp(AreasOf(plan, Upload), b)
    ensures WrittenNear(u, b, m)
  {
    var front, q := plan[..|plan| - 1], plan[|plan| - 1];
    var p, ups := MpPart(q.file.start, q.file.size, q.file.partNum), AreasOf(front, Upload);
    InMpPush(ups, p);
    if q.kind == Upload {
      assert AllWritten(ups + [p], u);
      assert forall i :: 0 <= i < |ups| ==> (ups + [p])[i] == ups[i];
      assert (ups + [p])[|ups|] == p;
    }
    if q.kind == Upload && p.Covers(b) {
      BlockOf(b, |front|, m);
      var x :| p.start <= x < p.start + p.size && Holds(u, x);
    } else {
      UploadNear(front, u, m, b);
    }
  }

  lemma PlanWithin(ls: Lists, plan: seq<Planned>, u: seq<Part>, list: seq<FilePart>, m: int, useCopy: bool,
                   st: seq<Status>, local: seq<byte>, remote: seq<byte>, org: int)
    requires Divides(ls, plan, u, |st|, m, useCopy) && Keeps(plan) == UntouchedOf(list, u)
             && ls.cancel == TouchedOf(list, u)
    requires Tracked(st, org, u, list) && Sound(st, local, remote, org) && 0 < m && |plan| == Ceil(|st|, m)
    ensures |plan| <= MAX_MULTIPART_CNT <==> |local| <= MAX_MULTIPART_CNT * m
    ensures |plan| <= MAX_MULTIPART_CNT ==> AreasTaken(ls.up, ls.copy, |local|, |remote|)
  {
    CeilLe(|st|, MAX_MULTIPART_CNT, m);
    if |plan| <= MAX_MULTIPART_CNT { PlanTaken(ls, plan, u, list, m, useCopy, st, local, remote, org); }
  }

  /** A service that accepted every part got no more than it takes. */
  lemma FewParts(plan: seq<Planned>, m: int, sent: map<int, seq<byte>>, local: seq<byte>, remote: seq<byte>)
    requires Tiling(plan, m) && MIN_MULTIPART_SIZE <= m
    requires RightFor(PlanFiles(plan), [], sent, local, remote, []) && AllSent(PlanFiles(plan), sent)
    ensures |plan| <= MAX_MULTIPART_CNT
  {
    if plan != [] {
      var k := |plan| - 1;
      PlanLimits(plan, m, k);
      SentRight(plan, sent, local, remote, k);
    }
  }

  lemma {:induction false} InMpMember(ps: seq<MpPart>, p: MpPart, b: int)
    requires p in ps && p.Covers(b)
    ensures InMp(ps, b)
  {
    if p != ps[|ps| - 1] {
      InMpMember(ps[..|ps| - 1], p, b);
    }
  }

  /** Once the object is the file, the file is sound whatever its flags say. */
  lemma SoundReply(st: seq<Status>, local: seq<byte>, remote: seq<byte>, org: int)
    requires |st| == |local|
    ensures var v := View(st, local, remote, org);
            View(st, local, v, org) == v && Sound(st, local, v, org)
  {
    var v := View(st, local, remote, org);
    assert View(st, local, v, org) == v;
  }
}
