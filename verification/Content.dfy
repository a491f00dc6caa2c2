/** What an opened file contains: a byte array, of which the cache file holds some bytes and the old
    object the others. The steps of FdEntity (fdcache_entity.cpp) on page statuses, cache file and
    object, as facts about that byte array. */
module Contents {
  import opened Limits
  import opened Pages
  import opened PageLists

  /** Byte i is still to be fetched from the object. */
  predicate Remote(st: seq<Status>, org: int, i: int)
    requires 0 <= i < |st|
  {
    st[i] == GAP && i < org
  }

  /** The file as its user sees it: bytes below org that are neither loaded nor modified come from
      the object, all others from the cache file. */
  ghost function View(st: seq<Status>, local: seq<byte>, remote: seq<byte>, org: int): (v: seq<byte>)
    requires |st| == |local|
    ensures |v| == |local|
    ensures forall i :: 0 <= i < |v| ==>
              v[i] == if Remote(st, org, i) && i < |remote| then remote[i] else local[i]
  {
    seq(|local|, i requires 0 <= i < |local| => if Remote(st, org, i) && i < |remote| then remote[i] else local[i])
  }

  /** Bytes nobody modified are those of the object. */
  ghost predicate Sound(st: seq<Status>, local: seq<byte>, remote: seq<byte>, org: int) {
    |st| == |local| &&
    forall i :: 0 <= i < |st| && !st[i].modified ==> i < |remote| && View(st, local, remote, org)[i] == remote[i]
  }

  /** ... and lie below org: whatever is dropped from the cache file can be fetched again. */
  ghost predicate Anchored(st: seq<Status>, org: int) {
    forall i :: 0 <= i < |st| && !st[i].modified ==> i < org
  }

  ghost predicate NoneModified(st: seq<Status>) {
    forall i :: 0 <= i < |st| ==> !st[i].modified
  }

  /** local with data at offset. */
  function Patched(local: seq<byte>, offset: nat, data: seq<byte>): (r: seq<byte>)
    requires offset <= |local|
    ensures |r| == if offset + |data| <= |local| then |local| else offset + |data|
    ensures forall i :: 0 <= i < |r| ==> r[i] == if offset <= i < offset + |data| then data[i - offset] else local[i]
  {
    local[..offset] + data + (if offset + |data| <= |local| then local[offset + |data|..] else [])
  }

  /** n bytes, cut or filled up with zeros. */
  function Fitted(s: seq<byte>, n: nat): (r: seq<byte>)
    ensures |r| == n && forall i :: 0 <= i < n ==> r[i] == if i < |s| then s[i] else 0
  {
    if n <= |s| then s[..n] else s + seq(n - |s|, i => 0)
  }

  /** What a write of data at start makes of the file. */
  ghost function Written(v: seq<byte>, start: nat, data: seq<byte>): (r: seq<byte>)
    ensures |r| == if start + |data| <= |v| then |v| else start + |data|
    ensures forall i :: 0 <= i < |r| ==>
              r[i] == if start <= i < start + |data| then data[i - start] else if i < |v| then v[i] else 0
  {
    Patched(if |v| < start then Fitted(v, start) else v, start, data)
  }

  // ---- fetching

  /** st' is st with some bytes that were to be fetched now loaded. */
  ghost predicate Loads(st: seq<Status>, isModified: bool, st': seq<Status>) {
    |st'| == |st| && forall i :: 0 <= i < |st| ==>
          st'[i] == st[i] || (st[i] == GAP && st'[i] == Status(true, isModified))
  }

  /** Only bytes to be fetched change in the cache file. */
  ghost predicate LeavesCached(st: seq<Status>, org: int, local: seq<byte>, local': seq<byte>) {
    |local'| == |local| == |st| && forall i :: 0 <= i < |st| && !Remote(st, org, i) ==> local'[i] == local[i]
  }

  lemma LoadsTwice(a: seq<Status>, b: seq<Status>, c: seq<Status>, isModified: bool)
    requires Loads(a, isModified, b) && Loads(b, isModified, c)
    ensures Loads(a, isModified, c)
  {
  }

  lemma LeavesTwice(a: seq<Status>, b: seq<Status>, isModified: bool, org: int, x: seq<byte>, y: seq<byte>,
                    z: seq<byte>)
    requires Loads(a, isModified, b) && LeavesCached(a, org, x, y) && LeavesCached(b, org, y, z)
    ensures LeavesCached(a, org, x, z)
  {
    forall i | 0 <= i < |a| && !Remote(a, org, i) ensures z[i] == x[i] {
      assert !Remote(b, org, i);
    }
  }

  /** The number of bytes of an unloaded page the object has. */
  function NeedSize(offset: int, bytes: int, org: int): int {
    if offset < org then (if offset + bytes <= org then bytes else org - offset) else 0
  }

  /** An area that is neither loaded nor modified. */
  ghost predicate AllGap(st: seq<Status>, offset: int, bytes: int) {
    0 <= offset && 0 <= bytes && offset + bytes <= |st| && forall i :: offset <= i < offset + bytes ==> st[i] == GAP
  }

  /** data are the bytes of the object at offset. */
  ghost predicate CopyOf(data: seq<byte>, remote: seq<byte>, offset: nat) {
    data == [] || (offset + |data| <= |remote| && data == remote[offset..offset + |data|])
  }

  /** One fetched area: the file keeps its content. */
  lemma FetchView(st: seq<Status>, local: seq<byte>, remote: seq<byte>, org: int, offset: nat, bytes: nat,
                  isModified: bool, data: seq<byte>)
    requires Sound(st, local, remote, org) && AllGap(st, offset, bytes)
    requires |data| == NeedSize(offset, bytes, org) && CopyOf(data, remote, offset)
    ensures var st', local' := Overlay(st, offset, bytes, Status(true, isModified)), Patched(local, offset, data);
            && |local'| == |local| && View(st', local', remote, org) == View(st, local, remote, org)
            && Loads(st, isModified, st') && LeavesCached(st, org, local, local')
  {
    var st', local' := Overlay(st, offset, bytes, Status(true, isModified)), Patched(local, offset, data);
    forall i | 0 <= i < |st| ensures View(st', local', remote, org)[i] == View(st, local, remote, org)[i] {
      if offset <= i < offset + bytes { assert st[i] == GAP; }
    }
    forall i | 0 <= i < |st| && !Remote(st, org, i) ensures local'[i] == local[i] {
      if offset <= i < offset + bytes { assert st[i] == GAP; }
    }
  }

  /** A fetch that failed half-way may leave anything where it wrote. */
  lemma TornView(st: seq<Status>, local: seq<byte>, remote: seq<byte>, org: int, offset: nat, bytes: nat,
                 data: seq<byte>)
    requires Sound(st, local, remote, org) && AllGap(st, offset, bytes) && |data| == NeedSize(offset, bytes, org)
             && 0 <= |data|
    ensures var local' := Patched(local, offset, data);
            && |local'| == |local| && View(st, local', remote, org) == View(st, local, remote, org)
            && Sound(st, local', remote, org) && LeavesCached(st, org, local, local')
  {
    var local' := Patched(local, offset, data);
    forall i | offset <= i < offset + |data| ensures Remote(st, org, i) && i < |remote| {
      assert st[i] == GAP;
    }
    assert View(st, local', remote, org) == View(st, local, remote, org);
  }

  lemma LoadsSound(st: seq<Status>, local: seq<byte>, remote: seq<byte>, org: int, isModified: bool, st': seq<Status>,
                   local': seq<byte>)
    requires Sound(st, local, remote, org) && Loads(st, isModified, st') && |local'| == |local|
    requires View(st', local', remote, org) == View(st, local, remote, org)
    ensures Sound(st', local', remote, org)
    ensures Anchored(st, org) ==> Anchored(st', org)
  {
    forall i | 0 <= i < |st'| && !st'[i].modified
      ensures i < |remote| && View(st', local', remote, org)[i] == remote[i]
      ensures !st[i].modified
    {
    }
  }

  // ---- writing and truncating

  const ZERO_FILLED := Status(false, true)
  const WRITTEN := Status(true, true)

  lemma WriteView(st: seq<Status>, local: seq<byte>, remote: seq<byte>, org: int, start: nat, data: seq<byte>)
    requires Sound(st, local, remote, org) && start <= |st|
    ensures var st', local' := Overlay(st, start, |data|, WRITTEN), Patched(local, start, data);
            && |st'| == |local'|
            && View(st', local', remote, org) == Patched(View(st, local, remote, org), start, data)
            && Sound(st', local', remote, org) && (Anchored(st, org) ==> Anchored(st', org))
  {
    var st', local' := Overlay(st, start, |data|, WRITTEN), Patched(local, start, data);
    assert View(st', local', remote, org) == Patched(View(st, local, remote, org), start, data);
  }

  lemma GrowView(st: seq<Status>, local: seq<byte>, remote: seq<byte>, org: int, n: nat)
    requires Sound(st, local, remote, org) && |st| <= n
    ensures var st', local' := Overlay(st, |st|, n - |st|, ZERO_FILLED), Fitted(local, n);
            && |st'| == |local'| && View(st', local', remote, org) == Fitted(View(st, local, remote, org), n)
            && Sound(st', local', remote, org) && (Anchored(st, org) ==> Anchored(st', org))
  {
    var st', local' := Overlay(st, |st|, n - |st|, ZERO_FILLED), Fitted(local, n);
    assert View(st', local', remote, org) == Fitted(View(st, local, remote, org), n);
  }

  /** size_orgmeta after an open that found the file already open: size < 0 keeps the file's size,
      meta < 0 means that no headers came along. */
  function OpenedOrg(org: int, size: int, meta: int): int {
    var newSize := if 0 <= size then size else org;
    var known := if 0 <= meta then meta else org;
    if newSize < known then newSize else known
  }

  lemma TruncateView(st: seq<Status>, local: seq<byte>, remote: seq<byte>, org: int, n: nat, size: int, meta: int)
    requires Sound(st, local, remote, org) && 0 <= org <= |st| && (meta < 0 || meta == |remote|)
    requires n == if 0 <= size then size else |st|
    ensures var st', local', org' := Sized(st, n, ZERO_FILLED), Fitted(local, n), OpenedOrg(org, size, meta);
            && |st'| == |local'| && 0 <= org' <= n
            && View(st', local', remote, org') == Fitted(View(st, local, remote, org), n)
            && Sound(st', local', remote, org') && (Anchored(st, org) ==> Anchored(st', org'))
  {
    var st', local', org' := Sized(st, n, ZERO_FILLED), Fitted(local, n), OpenedOrg(org, size, meta);
    forall i | 0 <= i < n
      ensures View(st', local', remote, org')[i] == Fitted(View(st, local, remote, org), n)[i]
    {
      if i < |st| {
        assert st'[i] == st[i];
        assert !st[i].modified ==> i < |remote| && View(st, local, remote, org)[i] == remote[i];
      }
    }
    forall i | 0 <= i < n && !st'[i].modified
      ensures i < |st| && st'[i] == st[i]
    {
    }
  }

  // ---- giving up cached bytes

  /** What byte i reads as once it is dropped from the cache file. */
  ghost function Refetched(remote: seq<byte>, org: int, i: nat): byte {
    if i < org && i < |remote| then remote[i] else 0
  }

  /** Dropping the whole cache of an unmodified file loses nothing exactly if no byte from org on
      is other than zero; never when the file is anchored. */
  lemma DropView(st: seq<Status>, local: seq<byte>, remote: seq<byte>, org: int)
    requires Sound(st, local, remote, org) && NoneModified(st)
    ensures var st', local' := Sized([], |st|, GAP), Fitted([], |st|);
            && (View(st', local', remote, org) == View(st, local, remote, org) <==>
                  forall i :: 0 <= i < |st| && org <= i ==> View(st, local, remote, org)[i] == 0)
            && (Anchored(st, org) ==>
                View(st', local', remote, org) == View(st, local, remote, org) && Anchored(st', org))
  {
    var st', local' := Sized([], |st|, GAP), Fitted([], |st|);
    var v, v' := View(st, local, remote, org), View(st', local', remote, org);
    forall i | 0 <= i < |st|
      ensures !st[i].modified && v'[i] == Refetched(remote, org, i) && (i < org ==> v'[i] == v[i])
              && (Anchored(st, org) ==> i < org)
    {
      assert !st[i].modified && st'[i] == GAP;
    }
    if v' == v {
      forall i | 0 <= i < |st| && org <= i ensures v[i] == 0 { assert v'[i] == Refetched(remote, org, i); }
    }
    if forall i :: 0 <= i < |st| && org <= i ==> v[i] == 0 {
      assert forall i :: 0 <= i < |st| ==> v'[i] == v[i];
      assert v' == v;
    }
    if Anchored(st, org) {
      assert forall i :: 0 <= i < |st| ==> v'[i] == v[i];
      assert v' == v;
      forall i | 0 <= i < |st'| && !st'[i].modified ensures i < org { assert !st[i].modified; }
    }
  }

  /** Unmodified everywhere and the same content: still sound. */
  lemma SameSound(st: seq<Status>, local: seq<byte>, st': seq<Status>, local': seq<byte>, remote: seq<byte>, org: int)
    requires Sound(st, local, remote, org) && NoneModified(st) && |st'| == |local'| == |local|
    requires View(st', local', remote, org) == View(st, local, remote, org)
    ensures Sound(st', local', remote, org)
  {
    forall i | 0 <= i < |st'| && !st'[i].modified
      ensures i < |remote| && View(st', local', remote, org)[i] == remote[i]
    {
      assert !st[i].modified;
      assert View(st, local, remote, org)[i] == remote[i];
    }
  }

  /** The statuses and the cache file after the bytes of the areas were punched out. */
  ghost predicate Punched(st: seq<Status>, local: seq<byte>, areas: seq<Page>, st': seq<Status>, local': seq<byte>) {
    && |st'| == |local'| == |local| == |st|
    && forall i :: 0 <= i < |st| ==>
         if Hit(areas, i) then st'[i] == GAP && local'[i] == 0 else st'[i] == st[i] && local'[i] == local[i]
  }

  /** Punching loses nothing exactly if every punched byte reads the same from the object, zero from
      org on. */
  lemma PunchView(st: seq<Status>, local: seq<byte>, remote: seq<byte>, org: int, areas: seq<Page>, st': seq<Status>,
                  local': seq<byte>)
    requires Sound(st, local, remote, org) && Punched(st, local, areas, st', local')
    ensures var v, v' := View(st, local, remote, org), View(st', local', remote, org);
            v' == v <==> forall i :: 0 <= i < |st| && Hit(areas, i) ==> v[i] == Refetched(remote, org, i)
  {
    var v, v' := View(st, local, remote, org), View(st', local', remote, org);
    forall i | 0 <= i < |st| ensures v'[i] == if Hit(areas, i) then Refetched(remote, org, i) else v[i] {
    }
    if v' == v { assert forall i :: 0 <= i < |st| ==> v'[i] == v[i]; }
  }

  /** In an anchored file only modified bytes can be lost, and without any none is. */
  lemma PunchAnchored(st: seq<Status>, local: seq<byte>, remote: seq<byte>, org: int, areas: seq<Page>,
                      st': seq<Status>, local': seq<byte>)
    requires Sound(st, local, remote, org) && Anchored(st, org) && Punched(st, local, areas, st', local')
    ensures var v, v' := View(st, local, remote, org), View(st', local', remote, org);
            && (v' == v <==> forall i :: 0 <= i < |st| && Hit(areas, i) && st[i].modified ==>
                v[i] == Refetched(remote, org, i))
    ensures NoneModified(st) ==>
              View(st', local', remote, org) == View(st, local, remote, org) && Sound(st', local', remote, org)
                  && Anchored(st', org)
  {
    PunchView(st, local, remote, org, areas, st', local');
  }

  /** Of an unmodified file exactly the bytes from org on that are not zero are lost when punched. */
  lemma PunchUnmodified(st: seq<Status>, local: seq<byte>, remote: seq<byte>, org: int, areas: seq<Page>,
                        st': seq<Status>, local': seq<byte>)
    requires Sound(st, local, remote, org) && NoneModified(st) && Punched(st, local, areas, st', local')
    ensures var v, v' := View(st, local, remote, org), View(st', local', remote, org);
            v' == v <==> forall i :: 0 <= i < |st| && Hit(areas, i) ==> i < org || v[i] == 0
  {
    var v := View(st, local, remote, org);
    PunchView(st, local, remote, org, areas, st', local');
    forall i | 0 <= i < |st| ensures v[i] == Refetched(remote, org, i) <==> i < org || v[i] == 0 {
      assert !st[i].modified;
    }
  }

  /** A new file after its first upload by parts: all bytes are loaded and unmodified, the object is the
      file, and org is still 0. Dropping its cache loses it, and so does punching its first byte. */
  lemma StaleSize(v: seq<byte>)
    requires v != [] && v[0] != 0
    ensures var st := seq(|v|, i => Status(true, false));
            && Sound(st, v, v, 0) && NoneModified(st) && View(st, v, v, 0) == v
            && View(Sized([], |v|, GAP), Fitted([], |v|), v, 0) != v
            && forall areas, st', local' :: Punched(st, v, areas, st', local') && Hit(areas, 0) ==>
                 View(st', local', v, 0) != v
  {
    var st := seq(|v|, i => Status(true, false));
    assert View(st, v, v, 0) == v;
    DropView(st, v, v, 0);
    forall areas, st', local' | Punched(st, v, areas, st', local') && Hit(areas, 0)
      ensures View(st', local', v, 0) != v
    {
      PunchUnmodified(st, v, v, 0, areas, st', local');
    }
  }

  // ---- after an upload

  /** Once the object is the file, clearing the modified flags makes the file its copy; it is anchored
      again exactly if org reaches its end. */
  lemma FlushedView(st: seq<Status>, local: seq<byte>, remote: seq<byte>, org: int, org': int)
    requires |st| == |local| && 0 <= org <= org'
    ensures var v := View(st, local, remote, org);
            var st' := Unmodified(st);
            && View(st', local, v, org') == v && Sound(st', local, v, org') && NoneModified(st')
            && (Anchored(st', org') <==> |st| <= org')
  {
    var v, st' := View(st, local, remote, org), Unmodified(st);
    assert View(st', local, v, org') == v;
    if Anchored(st', org') && 0 < |st| { assert !st'[|st| - 1].modified; }
  }
}
