/** The class StatCache of cache.cpp, as far as eviction and the index of pinned names go: entries
    with their age, the "oldest first" truncation, and the map from directories to the names in them
    that must not be truncated. */
module StatCaches {

  // ---- entries and their age

  /** struct timespec. */
  datatype Time = Time(sec: int, nsec: int)

  const NANOS: int := 1_000_000_000

  /** A reading of the clock, in nanoseconds. */
  ghost function Nanos(t: Time): int {
    t.sec * NANOS + t.nsec
  }

  ghost predicate IsClock(t: Time) {
    0 <= t.nsec < NANOS
  }

  function CompareTime(a: Time, b: Time): (c: int)
    ensures -1 <= c <= 1
    ensures IsClock(a) && IsClock(b) ==> (c < 0 <==> Nanos(a) < Nanos(b)) && (c == 0 <==> Nanos(a) == Nanos(b))
  {
    if a.sec < b.sec then -1 else if a.sec > b.sec then 1
    else if a.nsec < b.nsec then -1 else if a.nsec > b.nsec then 1 else 0
  }

  /** What the truncation looks at in an entry; notruncate counts the holders of a pin. */
  datatype Entry = Entry(date: Time, hits: nat, noObject: bool, notruncate: nat)

  /** The order of sort_statiterlist: by date, then by hit count. */
  predicate Older(a: Entry, b: Entry)
    ensures IsClock(a.date) && IsClock(b.date) ==>
              (Older(a, b) <==>
                 Nanos(a.date) < Nanos(b.date) || (Nanos(a.date) == Nanos(b.date) && a.hits < b.hits))
  {
    var c := CompareTime(a.date, b.date);
    c < 0 || (c == 0 && a.hits < b.hits)
  }

  lemma OlderIsOrder(a: Entry, b: Entry, c: Entry)
    ensures !Older(a, a) && !(Older(a, b) && Older(b, a))
    ensures !Older(b, a) && !Older(c, b) ==> !Older(c, a)
  {
  }

  type Path = string
  type Cache = map<Path, Entry>

  // ---- the selection of the oldest

  /** Oldest first. */
  ghost predicate SortedBy(ks: seq<Path>, cache: Cache) {
    ks == [] ||
    var front, last := ks[..|ks| - 1], ks[|ks| - 1];
    SortedBy(front, cache) && last in cache && last !in front &&
    forall k :: k in front ==> k in cache && !Older(cache[last], cache[k])
  }

  ghost function SetOf(ks: seq<Path>): set<Path> {
    set k | k in ks
  }

  lemma SetPush(ks: seq<Path>, k: Path)
    ensures SetOf(ks + [k]) == SetOf(ks) + {k}
  {
    assert forall x :: x in ks + [k] <==> x in ks || x == k;
  }

  lemma {:induction false} SortedSize(ks: seq<Path>, cache: Cache)
    requires SortedBy(ks, cache)
    ensures |SetOf(ks)| == |ks| && forall k :: k in ks ==> k in cache
  {
    if ks == [] {
      assert SetOf(ks) == {};
    } else {
      var front, last := ks[..|ks| - 1], ks[|ks| - 1];
      SortedSize(front, cache);
      assert ks == front + [last];
      SetPush(front, last);
    }
  }

  /** The list with k, sorted again. */
  function Sorted(ks: seq<Path>, k: Path, cache: Cache): seq<Path>
    requires k in cache && forall x :: x in ks ==> x in cache
  {
    if ks == [] || !Older(cache[k], cache[ks[|ks| - 1]]) then ks + [k]
    else
      assert forall x :: x in ks[..|ks| - 1] ==> x in ks;
      Sorted(ks[..|ks| - 1], k, cache) + [ks[|ks| - 1]]
  }

  lemma {:induction false} SortedKeeps(ks: seq<Path>, k: Path, cache: Cache)
    requires SortedBy(ks, cache) && k in cache && k !in ks && forall x :: x in ks ==> x in cache
    ensures SortedBy(Sorted(ks, k, cache), cache) && SetOf(Sorted(ks, k, cache)) == SetOf(ks) + {k}
  {
    if ks == [] || !Older(cache[k], cache[ks[|ks| - 1]]) {
      YoungestLast(ks, k, cache);
      SetPush(ks, k);
    } else {
      var front, last := ks[..|ks| - 1], ks[|ks| - 1];
      assert ks == front + [last];
      SortedKeeps(front, k, cache);
      SetPush(front, last);
      SortedBehind(front, last, k, Sorted(front, k, cache), cache);
    }
  }

  lemma SortedBehind(front: seq<Path>, last: Path, k: Path, r: seq<Path>, cache: Cache)
    requires SortedBy(r, cache) && SetOf(r) == SetOf(front) + {k} && last in cache && k in cache
    requires last != k && last !in front && Older(cache[k], cache[last])
    requires forall x :: x in front ==> x in cache && !Older(cache[last], cache[x])
    ensures SortedBy(r + [last], cache) && SetOf(r + [last]) == SetOf(front) + {last} + {k}
  {
    SetPush(r, last);
    assert (r + [last])[..|r|] == r;
    assert !Older(cache[last], cache[k]);
    forall x | x in r ensures x in cache && !Older(cache[last], cache[x]) && x != last {
      assert x in SetOf(r);
    }
  }

  lemma YoungestLast(ks: seq<Path>, k: Path, cache: Cache)
    requires SortedBy(ks, cache) && k in cache && k !in ks && (ks == [] || !Older(cache[k], cache[ks[|ks| - 1]]))
    ensures SortedBy(ks + [k], cache)
  {
    assert (ks + [k])[..|ks|] == ks;
    forall x | x in ks ensures x in cache && !Older(cache[k], cache[x]) {
      var front, last := ks[..|ks| - 1], ks[|ks| - 1];
      assert ks == front + [last];
      if x != last { OlderIsOrder(cache[x], cache[last], cache[k]); }
    }
  }

  ghost predicate Unique(ks: seq<Path>) {
    ks == [] || (Unique(ks[..|ks| - 1]) && ks[|ks| - 1] !in ks[..|ks| - 1])
  }

  /** The entries of ks that no one holds. */
  ghost function Removable(ks: seq<Path>, cache: Cache): set<Path> {
    set k | k in ks && k in cache && cache[k].notruncate == 0
  }

  ghost function Held(ks: seq<Path>, cache: Cache): set<Path> {
    set k | k in ks && k in cache && cache[k].notruncate != 0
  }

  /** Nothing of all left out of chosen is older than something in it. */
  ghost predicate Oldest(chosen: set<Path>, all: set<Path>, cache: Cache) {
    chosen <= all && (forall k :: k in all ==> k in cache) &&
    forall a, b :: a in chosen && b in all && b !in chosen ==> !Older(cache[b], cache[a])
  }

  function Min(a: int, b: int): int {
    if a < b then a else b
  }

  /** The first n elements. */
  ghost function Trim(ks: seq<Path>, n: nat): seq<Path> {
    ks[..Min(|ks|, n)]
  }

  lemma {:induction false} TrimKeeps(ks: seq<Path>, n: nat, all: set<Path>, cache: Cache)
    requires SortedBy(ks, cache) && Oldest(SetOf(ks), all, cache)
    ensures SortedBy(Trim(ks, n), cache) && Oldest(SetOf(Trim(ks, n)), all, cache)
  {
    if n < |ks| {
      var front, last := ks[..|ks| - 1], ks[|ks| - 1];
      assert ks == front + [last];
      SetPush(front, last);
      forall a, b | a in SetOf(front) && b in all && b !in SetOf(front) ensures !Older(cache[b], cache[a]) {
        if b == last { assert a in front; }
      }
      TrimKeeps(front, n, all, cache);
      assert Trim(front, n) == Trim(ks, n);
    } else {
      assert Trim(ks, n) == ks;
    }
  }

  /** One more removable entry: the n oldest stay chosen. */
  lemma {:induction false} ChooseOne(ks: seq<Path>, n: nat, all: set<Path>, k: Path, cache: Cache)
    requires SortedBy(ks, cache) && Oldest(SetOf(ks), all, cache) && k in cache && k !in all && 0 < n
    requires |ks| == Min(n, |all|)
    ensures k !in ks && forall x :: x in ks ==> x in cache
    ensures var r := Trim(Sorted(ks, k, cache), n);
            SortedBy(r, cache) && Oldest(SetOf(r), all + {k}, cache) && |r| == Min(n, |all + {k}|)
  {
    assert k !in SetOf(ks);
    SortedKeeps(ks, k, cache);
    var r := Sorted(ks, k, cache);
    OneLonger(ks, r, k, cache);
    assert |all + {k}| == |all| + 1;
    if |all| < n {
      SortedSize(ks, cache);
      ChooseAll(ks, all, k, cache, r);
      assert Trim(r, n) == r;
    } else {
      DropYoungest(ks, r, all, k, cache);
      assert Trim(r, n) == r[..|r| - 1];
    }
  }

  lemma {:induction false} OneLonger(ks: seq<Path>, r: seq<Path>, k: Path, cache: Cache)
    requires SortedBy(ks, cache) && SortedBy(r, cache) && SetOf(r) == SetOf(ks) + {k} && k !in SetOf(ks)
    ensures |r| == |ks| + 1
  {
    SortedSize(ks, cache);
    SortedSize(r, cache);
  }

  lemma {:induction false} ChooseAll(ks: seq<Path>, all: set<Path>, k: Path, cache: Cache, r: seq<Path>)
    requires Oldest(SetOf(ks), all, cache) && |SetOf(ks)| == |all| && k in cache && SetOf(r) == SetOf(ks) + {k}
    ensures Oldest(SetOf(r), all + {k}, cache)
  {
    SameSubset(SetOf(ks), all);
  }

  lemma SameSubset(a: set<Path>, b: set<Path>)
    requires a <= b && |a| == |b|
    ensures a == b
  {
    assert b == a + (b - a);
  }

  lemma DropYoungest(ks: seq<Path>, r: seq<Path>, all: set<Path>, k: Path, cache: Cache)
    requires SortedBy(r, cache) && Oldest(SetOf(ks), all, cache) && k in cache && k !in all && r != []
    requires SetOf(r) == SetOf(ks) + {k}
    ensures SortedBy(r[..|r| - 1], cache) && Oldest(SetOf(r[..|r| - 1]), all + {k}, cache)
  {
    var t, y := r[..|r| - 1], r[|r| - 1];
    assert r == t + [y];
    SetPush(t, y);
    forall a, b | a in SetOf(t) && b in all + {k} && b !in SetOf(t) ensures !Older(cache[b], cache[a]) {
      assert a in t && a in SetOf(r);
      if b != y {
        assert b !in SetOf(r);
        if a == k {
          assert y in SetOf(r) && y != k;
          OlderIsOrder(cache[k], cache[y], cache[b]);
        }
      }
    }
  }

  /** erase holds the oldest entries among the first i, as many as count minus the pins seen so far
      allows. */
  ghost predicate Scanned(order: seq<Path>, i: nat, cache: Cache, count: nat, left: nat, erase: seq<Path>) {
    && i <= |order| && left == (if count <= |Held(order[..i], cache)| then 0 else count - |Held(order[..i], cache)|)
    && SortedBy(erase, cache) && Oldest(SetOf(erase), Removable(order[..i], cache), cache)
    && |erase| == Min(left, |Removable(order[..i], cache)|)
  }

  lemma ScanNext(order: seq<Path>, i: nat, cache: Cache)
    requires Unique(order) && i < |order| && forall k :: k in order ==> k in cache
    ensures var k := order[i];
            && k in cache && k !in order[..i]
            && Removable(order[..i + 1], cache) == Removable(order[..i], cache) + (if cache[k].notruncate == 0 then {k}
                  else {})
            && Held(order[..i + 1], cache) == Held(order[..i], cache) + (if cache[k].notruncate == 0 then {} else {k})
  {
    UniqueAt(order, i);
    assert order[i] in order;
    assert order[..i + 1] == order[..i] + [order[i]];
    assert forall x :: x in order[..i + 1] <==> x in order[..i] || x == order[i];
  }

  lemma {:induction false} UniqueAt(ks: seq<Path>, i: nat)
    requires Unique(ks) && i < |ks|
    ensures ks[i] !in ks[..i]
  {
    if i < |ks| - 1 {
      UniqueAt(ks[..|ks| - 1], i);
      assert ks[..|ks| - 1][..i] == ks[..i];
    }
  }

  lemma ScanStart(order: seq<Path>, cache: Cache, count: nat)
    ensures Scanned(order, 0, cache, count, count, [])
  {
    assert order[..0] == [];
    assert Removable([], cache) == {} && Held([], cache) == {} && SetOf([]) == {};
  }

  lemma ScanHeld(order: seq<Path>, i: nat, cache: Cache, count: nat, left: nat, erase: seq<Path>)
    requires Scanned(order, i, cache, count, left, erase) && 0 < left && i < |order|
    requires Unique(order) && (forall k :: k in order ==> k in cache) && cache[order[i]].notruncate != 0
    ensures Scanned(order, i + 1, cache, count, left - 1, Trim(erase, left - 1))
  {
    ScanNext(order, i, cache);
    TrimKeeps(erase, left - 1, Removable(order[..i], cache), cache);
  }

  lemma ScanFree(order: seq<Path>, i: nat, cache: Cache, count: nat, left: nat, erase: seq<Path>)
    requires Scanned(order, i, cache, count, left, erase) && 0 < left && i < |order|
    requires Unique(order) && (forall k :: k in order ==> k in cache) && cache[order[i]].notruncate == 0
    ensures forall x :: x in erase ==> x in cache
    ensures Scanned(order, i + 1, cache, count, left, Trim(Sorted(erase, order[i], cache), left))
  {
    ScanNext(order, i, cache);
    ChooseOne(erase, left, Removable(order[..i], cache), order[i], cache);
  }

  /** At the end, or once nothing is left to erase, the choice stands for the whole order. */
  lemma ScanEnd(order: seq<Path>, i: nat, cache: Cache, count: nat, left: nat, erase: seq<Path>)
    requires Scanned(order, i, cache, count, left, erase) && (i == |order| || left == 0)
    ensures SortedBy(erase, cache) && Oldest(SetOf(erase), Removable(order, cache), cache)
    ensures |erase| == Min(if count <= |Held(order, cache)| then 0 else count - |Held(order, cache)|,
                           |Removable(order, cache)|)
  {
    assert order[..|order|] == order;
    if i < |order| {
      assert erase == [] && SetOf(erase) == {};
      forall x | x in Held(order[..i], cache) ensures x in Held(order, cache) { assert x in order; }
      MoreElements(Held(order[..i], cache), Held(order, cache));
    }
  }

  lemma MoreElements(a: set<Path>, b: set<Path>)
    requires a <= b
    ensures |a| <= |b|
  {
    assert b == a + (b - a);
  }

  /** The scan of TruncateCache: collects entries without a pin, oldest first, and keeps only as many
      as are still to be erased; each pin met lowers that number, and the scan ends at zero. */
  method SelectOldest(order: seq<Path>, cache: Cache, count: nat) returns (erase: seq<Path>)
    requires Unique(order) && forall k :: k in order ==> k in cache
    ensures SortedBy(erase, cache) && Oldest(SetOf(erase), Removable(order, cache), cache)
    ensures |erase| == Min(if count <= |Held(order, cache)| then 0 else count - |Held(order, cache)|,
                           |Removable(order, cache)|)
  {
    var i, left;
    erase, i, left := Scan(order, cache, count);
    ScanEnd(order, i, cache, count, left, erase);
  }

  ghost predicate Scannable(order: seq<Path>, cache: Cache) {
    Unique(order) && forall k :: k in order ==> k in cache
  }

  method Scan(order: seq<Path>, cache: Cache, count: nat) returns (erase: seq<Path>, i: nat, left: nat)
    requires Scannable(order, cache)
    ensures Scanned(order, i, cache, count, left, erase) && (i == |order| || left == 0)
  {
    erase, i, left := [], 0, count;
    ScanStart(order, cache, count);
    while i < |order| && 0 < left
      invariant Scanned(order, i, cache, count, left, erase)
    {
      left, erase := ScanTurn(order, i, cache, count, left, erase);
      i := i + 1;
    }
  }

  method ScanTurn(order: seq<Path>, i: nat, cache: Cache, ghost count: nat, left: nat, erase: seq<Path>)
    returns (left': nat, erase': seq<Path>)
    requires Scannable(order, cache) && i < |order| && 0 < left
    requires Scanned(order, i, cache, count, left, erase)
    ensures Scanned(order, i + 1, cache, count, left', erase')
  {
    assert order[i] in order;
    left', erase' := left, erase;
    if 0 < cache[order[i]].notruncate {
      ScanHeld(order, i, cache, count, left, erase);
      left' := left - 1;
    } else {
      ScanFree(order, i, cache, count, left, erase);
      erase' := Sorted(erase, order[i], cache);
    }
    erase' := PopTo(erase', left');
  }

  method PopTo(ks: seq<Path>, n: nat) returns (r: seq<Path>)
    ensures r == Trim(ks, n)
  {
    r := ks;
    while n < |r|
      invariant Trim(r, n) == Trim(ks, n)
    {
      r := r[..|r| - 1];
    }
  }

  // ---- paths

  /** The position of the last slash, -1 without one. */
  function LastSlash(key: Path): (i: int)
    ensures -1 <= i < |key| && (i >= 0 ==> key[i] == '/')
    ensures forall j :: i < j < |key| ==> key[j] != '/'
  {
    if key == "" then -1
    else if key[|key| - 1] == '/' then |key| - 1
    else LastSlash(key[..|key| - 1])
  }

  /** dirname and basename of a path without repeated or trailing slashes. */
  function DirName(key: Path): Path {
    var i := LastSlash(key);
    if i < 0 then "." else if i == 0 then "/" else key[..i]
  }

  function BaseName(key: Path): Path {
    key[LastSlash(key) + 1..]
  }

  /** The directory under which a name is listed. */
  function ListDir(key: Path): Path {
    DirName(key) + "/"
  }

  /** Paths as the file system hands them out: absolute, no slash behind another. */
  ghost predicate IsPath(key: Path) {
    |key| > 0 && key[0] == '/' && forall i :: 0 < i < |key| ==> !(key[i - 1] == '/' && key[i] == '/')
  }

  ghost predicate IsFile(key: Path) {
    key != "" && key[|key| - 1] != '/'
  }

  ghost function JoinPath(dir: Path, name: Path): Path {
    if dir == "//" then "/" + name else dir + name
  }

  /** Directory and name determine the path. */
  lemma SplitJoins(key: Path)
    requires IsPath(key) && IsFile(key)
    ensures JoinPath(ListDir(key), BaseName(key)) == key
  {
    var i := LastSlash(key);
    assert key[0] == '/';
    if i == 0 {
      assert key == key[..1] + key[1..];
    } else {
      assert key == key[..i] + [key[i]] + key[i + 1..];
      assert ListDir(key)[i - 1] == key[i - 1] != '/';
    }
  }

  // ---- the index of pinned names

  type Index = map<Path, seq<Path>>

  ghost predicate Indexed(index: Index, dir: Path, name: Path) {
    dir in index && name in index[dir]
  }

  /** No empty and no repeating list. */
  ghost predicate Tidy(index: Index) {
    forall d :: d in index ==> index[d] != [] && Unique(index[d])
  }

  ghost predicate Pinned(cache: Cache, key: Path) {
    key in cache && 0 < cache[key].notruncate
  }

  /** dir and name are those of a path. */
  ghost predicate Names(dir: Path, name: Path) {
    var key := JoinPath(dir, name);
    IsPath(key) && IsFile(key) && ListDir(key) == dir && BaseName(key) == name
  }

  /** The index lists exactly the pinned files. */
  ghost predicate Agrees(cache: Cache, index: Index) {
    Tidy(index) && (forall k :: k in cache ==> IsPath(k)) &&
    forall d, n :: Indexed(index, d, n) <==> Names(d, n) && Pinned(cache, JoinPath(d, n))
  }

  /** Read for a key: it is listed exactly when it is pinned. */
  lemma AgreesAt(cache: Cache, index: Index, key: Path)
    requires Agrees(cache, index) && IsPath(key) && IsFile(key)
    ensures Indexed(index, ListDir(key), BaseName(key)) <==> Pinned(cache, key)
  {
    SplitJoins(key);
    assert Names(ListDir(key), BaseName(key));
  }

  // ---- reading a directory

  ghost predicate IsName(n: Path) {
    n != "" && forall i :: 0 <= i < |n| ==> n[i] != '/'
  }

  /** The path of a directory with a slash behind it. */
  function Slashed(dir: Path): (r: Path)
    requires dir != ""
    ensures if dir[|dir| - 1] == '/' then r == dir else r == dir + "/"
  {
    if dir[|dir| - 1] != '/' then dir + "/" else dir
  }

  /** n names a pinned file in the directory. */
  ghost predicate PinnedIn(cache: Cache, dir: Path, n: Path)
    requires dir != ""
  {
    IsName(n) && Pinned(cache, Slashed(dir) + n)
  }

  /** Below the root the index lists exactly the pinned files of a directory. */
  lemma ListedIn(cache: Cache, index: Index, dir: Path, n: Path)
    requires Agrees(cache, index) && IsPath(dir) && dir != "/"
    ensures Indexed(index, Slashed(dir), n) <==> PinnedIn(cache, dir, n)
  {
    var d := Slashed(dir);
    var key := d + n;
    assert JoinPath(d, n) == key && d[|d| - 1] == '/';
    if Names(d, n) {
      forall i | 0 <= i < |n| ensures n[i] != '/' { assert BaseName(key)[i] == key[LastSlash(key) + 1 + i]; }
    }
    if PinnedIn(cache, dir, n) { InDirectory(d, n); }
  }

  lemma InDirectory(d: Path, n: Path)
    requires IsPath(d) && d != "/" && d[|d| - 1] == '/' && IsName(n) && IsPath(d + n)
    ensures ListDir(d + n) == d && BaseName(d + n) == n && IsFile(d + n)
  {
    var key, i := d + n, LastSlash(d + n);
    assert forall j :: |d| <= j < |key| ==> key[j] == n[j - |d|];
    assert key[|d| - 1] == '/';
    assert i == |d| - 1;
    assert key[..i] + "/" == d;
  }

  lemma DirTooLong(key: Path)
    ensures ListDir(key) != "/"
  {
    assert |DirName(key)| > 0;
  }

  /** The files of the root directory are listed as well, but under two slashes, where nobody looks. */
  lemma RootMissed(cache: Cache, index: Index, n: Path)
    requires Agrees(cache, index)
    ensures "/" !in index
    ensures PinnedIn(cache, "/", n) ==> Indexed(index, "//", n)
  {
    if "/" in index {
      assert Indexed(index, "/", index["/"][0]);
      DirTooLong(JoinPath("/", index["/"][0]));
    }
    if PinnedIn(cache, "/", n) {
      var key := "/" + n;
      assert key[0] == '/' && forall j :: 1 <= j < |key| ==> key[j] == n[j - 1];
      assert LastSlash(key) == 0;
      SplitJoins(key);
      AgreesAt(cache, index, key);
    }
  }

  ghost function WithName(index: Index, d: Path, n: Path): Index {
    if d !in index then index[d := [n]]
    else if n in index[d] then index
    else index[d := index[d] + [n]]
  }

  function Position(ks: seq<Path>, n: Path): (i: nat)
    ensures i <= |ks| && (i < |ks| ==> ks[i] == n) && (i == |ks| ==> n !in ks)
  {
    if ks == [] then 0
    else
      var i := Position(ks[..|ks| - 1], n);
      assert ks == ks[..|ks| - 1] + [ks[|ks| - 1]];
      if i < |ks| - 1 then i else if ks[|ks| - 1] == n then |ks| - 1 else |ks|
  }

  ghost function WithoutName(index: Index, d: Path, n: Path): Index {
    if d !in index then index
    else
      var list := index[d];
      var i := Position(list, n);
      if i == |list| then index
      else
        var rest := list[..i] + list[i + 1..];
        if rest == [] then index - {d} else index[d := rest]
  }

  lemma NameAdded(index: Index, d: Path, n: Path)
    requires Tidy(index)
    ensures Tidy(WithName(index, d, n))
    ensures forall x, y :: Indexed(WithName(index, d, n), x, y) <==> Indexed(index, x, y) || (x == d && y == n)
  {
    if d in index && n !in index[d] {
      var list := index[d];
      assert (list + [n])[..|list|] == list;
    } else if d !in index {
      assert [n][..0] == [] && Unique([n]);
    }
  }

  lemma {:induction false} RemovedAt(ks: seq<Path>, i: nat)
    requires Unique(ks) && i < |ks|
    ensures var rest := ks[..i] + ks[i + 1..];
            Unique(rest) && forall x :: x in rest <==> x in ks && x != ks[i]
  {
    var n := |ks| - 1;
    assert ks == ks[..n] + [ks[n]];
    var rest := ks[..i] + ks[i + 1..];
    if i < n {
      RemovedAt(ks[..n], i);
      var front := ks[..n][..i] + ks[..n][i + 1..];
      assert rest == front + [ks[n]];
      assert rest[..|rest| - 1] == front;
    } else {
      assert rest == ks[..n];
    }
  }

  lemma NameRemoved(index: Index, d: Path, n: Path)
    requires Tidy(index)
    ensures Tidy(WithoutName(index, d, n))
    ensures forall x, y :: Indexed(WithoutName(index, d, n), x, y) <==> Indexed(index, x, y) && !(x == d && y == n)
  {
    if d in index && Position(index[d], n) < |index[d]| {
      RemovedAt(index[d], Position(index[d], n));
    }
  }

  // ---- what the operations do to the entries

  /** The date of the entry lies more than expire seconds back. */
  function Expired(e: Entry, now: Time, expire: int): (r: bool)
    ensures IsClock(e.date) && IsClock(now) ==> (r <==> Nanos(e.date) + expire * NANOS < Nanos(now))
  {
    0 < CompareTime(Time(now.sec - expire, now.nsec), e.date)
  }

  /** The dates of the entries are readings of the clock. */
  ghost predicate Clocked(cache: Cache) {
    forall k :: k in cache ==> IsClock(cache[k].date)
  }

  /** Without a pin and dated more than expire seconds back. */
  ghost predicate Outlived(e: Entry, now: Time, expire: int) {
    e.notruncate == 0 && Nanos(e.date) + expire * NANOS < Nanos(now)
  }

  /** Dated earlier, or at the same time and not hit more often. */
  ghost predicate NoYounger(a: Entry, b: Entry) {
    Nanos(a.date) < Nanos(b.date) || (Nanos(a.date) == Nanos(b.date) && a.hits <= b.hits)
  }

  /** The entries the first step of a truncation leaves. */
  function Unexpired(cache: Cache, now: Time, expire: int): (r: Cache)
    ensures r.Keys <= cache.Keys && forall k :: k in r ==> r[k] == cache[k]
    ensures Clocked(cache) && IsClock(now) ==>
              forall k :: k in cache ==> (k in r <==> !Outlived(cache[k], now, expire))
  {
    map k | k in cache && !(cache[k].notruncate == 0 && Expired(cache[k], now, expire)) :: cache[k]
  }

  /** All entries without a pin. */
  ghost function Free(cache: Cache): set<Path> {
    set k | k in cache && cache[k].notruncate == 0
  }

  /** The path with its trailing slash removed, or with one added. */
  function Twin(key: Path): (r: Path)
    requires key != ""
    ensures if key[|key| - 1] == '/' then r + "/" == key else r == key + "/"
  {
    if key[|key| - 1] == '/' then key[..|key| - 1] else key + "/"
  }

  /** The keys a deletion removes. */
  ghost function Deleted(key: Path): (gone: set<Path>)
    ensures forall k :: k in gone <==>
              k == key || (k != "" && k + "/" == key) || (key != "" && key[|key| - 1] != '/' && k == key + "/")
  {
    if key == "" || key == "/" then {key} else {key, Twin(key)}
  }

  /** gone are the oldest free entries of mid, as many as must go to leave fewer than size. */
  ghost predicate Evicted(mid: Cache, size: nat, gone: set<Path>) {
    && Oldest(gone, Free(mid), mid)
    && |gone| == Min(if |Free(mid)| + 1 <= size then 0 else |Free(mid)| + 1 - size, |Free(mid)|)
  }

  /** cache' is what a truncation leaves of mid, the unexpired entries. */
  ghost predicate Truncated(mid: Cache, size: nat, cache': Cache) {
    if |mid| < size then cache' == mid
    else exists gone :: Evicted(mid, size, gone) && cache' == mid - gone
  }

  /** What a truncation does, by the clock: free entries that outlived the expiry time go, if there is one.
      Of the others, pinned ones stay, and so do all of them if they are fewer than size; otherwise
      size - 1 free ones stay if there are so many, and none that goes is younger than one of them. */
  ghost predicate Cleaned(before: Cache, expires: bool, expire: int, now: Time, size: nat, after: Cache) {
    var rest := set k | k in before && !(expires && Outlived(before[k], now, expire));
    && after.Keys <= rest && (forall k :: k in after ==> after[k] == before[k])
    && (forall k :: k in rest && 0 < before[k].notruncate ==> k in after)
    && (|rest| < size ==> after.Keys == rest)
    && (forall a, b :: a in rest && a !in after && b in Free(after) ==> NoYounger(before[a], before[b]))
    && |Free(after)| == (if size == 0 then 0 else Min(size - 1, |Free(before) * rest|))
  }

  lemma CleanedIs(before: Cache, expires: bool, expire: int, now: Time, mid: Cache, size: nat, after: Cache)
    requires Clocked(before) && Truncated(mid, size, after)
    requires forall k :: k in mid ==> k in before && mid[k] == before[k]
    requires forall k :: k in before ==> (k in mid <==> !(expires && Outlived(before[k], now, expire)))
    ensures Cleaned(before, expires, expire, now, size, after)
  {
    var rest := set k | k in before && !(expires && Outlived(before[k], now, expire));
    assert rest == mid.Keys && |rest| == |mid|;
    EvictionLeaves(mid, size, after);
    EvictionByClock(mid, size, after);
    assert Free(before) * rest == Free(mid);
    FreeLeft(mid, size, after);
  }

  /** How many free entries a truncation leaves. */
  lemma FreeLeft(mid: Cache, size: nat, after: Cache)
    requires Truncated(mid, size, after)
    ensures |Free(after)| == if size == 0 then 0 else Min(size - 1, |Free(mid)|)
  {
    FreePart(mid);
    if size <= |mid| {
      var gone :| Evicted(mid, size, gone) && after == mid - gone;
      assert Free(after) == Free(mid) - gone;
      RestSize(gone, Free(mid));
    }
  }

  /** Eviction never takes a pinned entry, only entries none of the free ones kept is older than, and
      so many that fewer than size free entries remain. */
  lemma EvictionLeaves(mid: Cache, size: nat, cache': Cache)
    requires Truncated(mid, size, cache')
    ensures forall k :: k in cache' ==> k in mid && cache'[k] == mid[k]
    ensures forall k :: k in mid && 0 < mid[k].notruncate ==> k in cache'
    ensures forall a, b :: a in mid && a !in cache' && b in Free(cache') ==> !Older(mid[b], mid[a])
    ensures 1 <= size ==> |Free(cache')| < size
  {
    FreePart(mid);
    if size <= |mid| {
      var gone :| Evicted(mid, size, gone) && cache' == mid - gone;
      assert Free(cache') == Free(mid) - gone;
      RestSize(gone, Free(mid));
      forall k | k in mid && 0 < mid[k].notruncate ensures k in cache' { assert k !in Free(mid); }
    }
  }

  /** The same by the clock: no free entry kept is older than an evicted one. */
  lemma EvictionByClock(mid: Cache, size: nat, cache': Cache)
    requires Truncated(mid, size, cache') && Clocked(mid)
    ensures forall a, b :: a in mid && a !in cache' && b in Free(cache') ==> NoYounger(mid[a], mid[b])
  {
    EvictionLeaves(mid, size, cache');
    forall a, b | a in mid && a !in cache' && b in Free(cache') ensures NoYounger(mid[a], mid[b]) {
      assert !Older(mid[b], mid[a]);
    }
  }

  lemma RestSize(a: set<Path>, b: set<Path>)
    requires a <= b
    ensures |b - a| == |b| - |a|
  {
    assert b == a + (b - a);
  }

  lemma FreePart(cache: Cache)
    ensures |Free(cache)| <= |cache|
  {
    assert Free(cache) <= cache.Keys;
    MoreElements(Free(cache), cache.Keys);
  }

  /** Removing entries without a pin leaves the index right. */
  lemma FreeRemoved(cache: Cache, index: Index, cache': Cache)
    requires Agrees(cache, index)
    requires forall k :: k in cache' ==> k in cache && cache'[k] == cache[k]
    requires forall k :: k in cache && 0 < cache[k].notruncate ==> k in cache'
    ensures Agrees(cache', index)
  {
    forall d, n ensures Indexed(index, d, n) <==> Names(d, n) && Pinned(cache', JoinPath(d, n)) {
      assert Pinned(cache', JoinPath(d, n)) <==> Pinned(cache, JoinPath(d, n));
    }
  }

  /** One entry was removed, and its name with it. */
  lemma EntryRemoved(cache: Cache, index: Index, key: Path)
    requires Agrees(cache, index) && key in cache
    ensures Agrees(cache - {key}, if IsFile(key) then WithoutName(index, ListDir(key), BaseName(key)) else index)
  {
    if IsFile(key) {
      SplitJoins(key);
      NameRemoved(index, ListDir(key), BaseName(key));
    }
    var index' := if IsFile(key) then WithoutName(index, ListDir(key), BaseName(key)) else index;
    forall d, n ensures Indexed(index', d, n) <==> Names(d, n) && Pinned(cache - {key}, JoinPath(d, n)) {
    }
  }

  /** An entry got its first pin, and its name was listed. */
  lemma EntryPinned(cache: Cache, index: Index, key: Path, e: Entry)
    requires Agrees(cache, index) && IsPath(key) && 0 < e.notruncate
    ensures Agrees(cache[key := e], if IsFile(key) then WithName(index, ListDir(key), BaseName(key)) else index)
  {
    if IsFile(key) {
      SplitJoins(key);
      NameAdded(index, ListDir(key), BaseName(key));
    }
    var index' := if IsFile(key) then WithName(index, ListDir(key), BaseName(key)) else index;
    forall d, n ensures Indexed(index', d, n) <==> Names(d, n) && Pinned(cache[key := e], JoinPath(d, n)) {
    }
  }

  /** An entry without a pin was replaced or added, or the number of its pins changed but not to or
      from zero. */
  lemma EntryChanged(cache: Cache, index: Index, key: Path, e: Entry)
    requires Agrees(cache, index) && IsPath(key) && (0 < e.notruncate <==> Pinned(cache, key))
    ensures Agrees(cache[key := e], index)
  {
    forall d, n ensures Indexed(index, d, n) <==> Names(d, n) && Pinned(cache[key := e], JoinPath(d, n)) {
    }
  }

  /** An entry lost its last pin, and its name was taken off the list. */
  lemma EntryUnpinned(cache: Cache, index: Index, key: Path, e: Entry)
    requires Agrees(cache, index) && key in cache && e.notruncate == 0
    ensures Agrees(cache[key := e], if IsFile(key) then WithoutName(index, ListDir(key), BaseName(key)) else index)
  {
    EntryRemoved(cache, index, key);
    var index' := if IsFile(key) then WithoutName(index, ListDir(key), BaseName(key)) else index;
    EntryChanged(cache - {key}, index', key, e);
    assert (cache - {key})[key := e] == cache[key := e];
  }

  // ---- the class

  /** The keys of a map in some order. */
  method InOrder(cache: Cache) returns (order: seq<Path>)
    ensures Unique(order) && SetOf(order) == cache.Keys
  {
    order := [];
    var rest := cache.Keys;
    while rest != {}
      invariant Unique(order) && Shares(order, rest, cache.Keys)
      decreases |rest|
    {
      var k :| k in rest;
      OrderPush(order, rest, cache.Keys, k);
      order := order + [k];
      rest := rest - {k};
    }
  }

  ghost predicate Shares(order: seq<Path>, rest: set<Path>, all: set<Path>) {
    SetOf(order) + rest == all && SetOf(order) !! rest
  }

  lemma OrderPush(order: seq<Path>, rest: set<Path>, all: set<Path>, k: Path)
    requires Unique(order) && Shares(order, rest, all) && k in rest
    ensures Unique(order + [k]) && Shares(order + [k], rest - {k}, all)
  {
    SetPush(order, k);
    assert (order + [k])[..|order|] == order && k !in SetOf(order);
  }

  class StatCache {
    var entries: Cache
    var index: Index           // notruncate_file_cache
    var cacheSize: nat
    var isExpireTime: bool
    var isExpireInterval: bool // an access renews the date
    var expireTime: int
    var useNegativeCache: bool

    constructor (size: nat)
      ensures Valid() && entries == map[] && cacheSize == size
      ensures isExpireTime && !isExpireInterval && expireTime == 900 && useNegativeCache
    {
      entries, index, cacheSize := map[], map[], size;
      isExpireTime, isExpireInterval, expireTime, useNegativeCache := true, false, 900, true;
    }

    ghost predicate Valid()
      reads this
    {
      Agrees(entries, index)
    }

    /** The names to show in a directory besides those in the bucket: those of its pinned files, except
        for the root directory, where none is found. */
    method GetNotruncateCache(parentdir: Path, list: seq<Path>) returns (ok: bool, all: seq<Path>)
      requires Valid()
      ensures ok == (parentdir != "") && list <= all && (Unique(list) ==> Unique(all))
      ensures forall n :: n in all <==> n in list || (ok && Indexed(index, Slashed(parentdir), n))
      ensures IsPath(parentdir) && parentdir != "/" ==>
                forall n :: n in all <==> n in list || PinnedIn(entries, parentdir, n)
      ensures parentdir == "/" ==> all == list
      // so the pinned files are all shown exactly if it is another directory, or they were there already
      ensures IsPath(parentdir) ==>
                ((forall n :: PinnedIn(entries, parentdir, n) ==> n in all) <==>
                   parentdir != "/" || forall n :: PinnedIn(entries, "/", n) ==> n in list)
    {
      all := list;
      if parentdir == "" {
        return false, all;
      }
      var dirpath := Slashed(parentdir);
      RootMissed(entries, index, "");
      forall n | IsPath(parentdir) && parentdir != "/"
        ensures Indexed(index, dirpath, n) <==> PinnedIn(entries, parentdir, n)
      {
        ListedIn(entries, index, parentdir, n);
      }
      ok := true;
      if dirpath !in index {
        return;
      }
      var names := index[dirpath];
      for i := 0 to |names|
        invariant list <= all && (Unique(list) ==> Unique(all))
        invariant forall n :: n in all <==> n in list || n in names[..i]
      {
        assert names[..i + 1] == names[..i] + [names[i]];
        if names[i] !in all {
          assert (all + [names[i]])[..|all|] == all;
          all := all + [names[i]];
        }
      }
      assert names[..|names|] == names;
    }

    method AddNotruncateCache(key: Path) returns (ok: bool)
      modifies this`index
      ensures ok == IsFile(key)
      ensures index == if ok then WithName(old(index), ListDir(key), BaseName(key)) else old(index)
    {
      if key == "" || key[|key| - 1] == '/' {
        return false;
      }
      var d, n := ListDir(key), BaseName(key);
      if d !in index {
        index := index[d := [n]];
      } else if n !in index[d] {
        index := index[d := index[d] + [n]];
      }
      return true;
    }

    method DelNotruncateCache(key: Path) returns (ok: bool)
      modifies this`index
      ensures ok == IsFile(key)
      ensures index == if ok then WithoutName(old(index), ListDir(key), BaseName(key)) else old(index)
    {
      if key == "" || key[|key| - 1] == '/' {
        return false;
      }
      var d, n := ListDir(key), BaseName(key);
      if d in index {
        var list := index[d];
        var i := Position(list, n);
        if i < |list| {
          var rest := list[..i] + list[i + 1..];
          index := if rest == [] then index - {d} else index[d := rest];
        }
      }
      return true;
    }

    /** Deletes an entry and its twin with or without the trailing slash, pinned or not. */
    method DelStatHasLock(key: Path)
      requires Valid()
      modifies this`entries, this`index
      ensures Valid() && entries == old(entries) - Deleted(key)
    {
      EraseEntry(key);
      if key != "" && key != "/" {
        EraseEntry(Twin(key));
      }
      assert entries == old(entries) - Deleted(key);
    }

    method EraseEntry(key: Path)
      requires Valid()
      modifies this`entries, this`index
      ensures Valid() && entries == old(entries) - {key}
    {
      if key in entries {
        EntryRemoved(entries, index, key);
        entries := entries - {key};
        var _ := DelNotruncateCache(key);
      } else {
        assert entries - {key} == entries;
      }
    }

    /** Pins or unpins an entry; nothing happens to a key that is not cached. */
    method ChangeNoTruncateFlag(key: Path, noTruncate: bool)
      requires Valid()
      modifies this`entries, this`index
      ensures Valid()
      ensures key !in old(entries) ==> entries == old(entries)
      ensures key in old(entries) ==>
                var e := old(entries)[key];
                entries == old(entries)[key := e.(notruncate := if noTruncate then e.notruncate + 1
                                                                else if 0 < e.notruncate then e.notruncate - 1 else 0)]
    {
      if key in entries {
        var e := entries[key];
        if noTruncate {
          if 0 == e.notruncate {
            EntryPinned(entries, index, key, e.(notruncate := e.notruncate + 1));
            var _ := AddNotruncateCache(key);
          } else {
            EntryChanged(entries, index, key, e.(notruncate := e.notruncate + 1));
          }
          entries := entries[key := e.(notruncate := e.notruncate + 1)];
        } else if 0 < e.notruncate {
          if e.notruncate == 1 {
            EntryUnpinned(entries, index, key, e.(notruncate := 0));
            var _ := DelNotruncateCache(key);
          } else {
            EntryChanged(entries, index, key, e.(notruncate := e.notruncate - 1));
          }
          entries := entries[key := e.(notruncate := e.notruncate - 1)];
        } else {
          assert entries[key := e] == entries;
        }
      }
    }

    /** Whether a truncation does anything. */
    ghost predicate Oversize(onlyOversize: bool)
      reads this
    {
      entries != map[] && !(onlyOversize && |entries| < cacheSize)
    }

    /** The entries the expiry step leaves. */
    function Fresh(now: Time): (r: Cache)
      reads this
      ensures r.Keys <= entries.Keys && forall k :: k in r ==> r[k] == entries[k]
      ensures !isExpireTime ==> r == entries
      ensures isExpireTime && Clocked(entries) && IsClock(now) ==>
                forall k :: k in entries ==> (k in r <==> !Outlived(entries[k], now, expireTime))
    {
      if isExpireTime then Unexpired(entries, now, expireTime) else entries
    }

    /** Drops expired entries and, if the cache is still full, the oldest free ones. */
    method TruncateCache(onlyOversize: bool, now: Time)
      requires Valid()
      modifies this`entries
      ensures Valid()
      ensures !old(Oversize(onlyOversize)) ==> entries == old(entries)
      ensures old(Oversize(onlyOversize)) ==> Truncated(old(Fresh(now)), cacheSize, entries)
      ensures old(Oversize(onlyOversize)) && Clocked(old(entries)) && IsClock(now) ==>
                Cleaned(old(entries), isExpireTime, expireTime, now, cacheSize, entries)
      ensures forall k :: k in entries ==> k in old(entries) && entries[k] == old(entries)[k]
      ensures forall k :: Pinned(old(entries), k) ==> k in entries
    {
      if entries == map[] || (onlyOversize && |entries| < cacheSize) {
        return;
      }
      ghost var before, mid := entries, Fresh(now);
      entries := Fresh(now);
      FreeRemoved(before, index, entries);
      if cacheSize <= |entries| {
        EraseOldest();
      }
      if Clocked(before) && IsClock(now) {
        EvictionByClock(mid, cacheSize, entries);
        CleanedIs(before, isExpireTime, expireTime, now, mid, cacheSize, entries);
      }
    }

    method EraseOldest()
      requires Valid() && cacheSize <= |entries|
      modifies this`entries
      ensures Valid() && Truncated(old(entries), cacheSize, entries)
      ensures forall k :: k in entries ==> k in old(entries) && entries[k] == old(entries)[k]
      ensures forall k :: Pinned(old(entries), k) ==> k in entries
    {
      ghost var mid := entries;
      var erase := OldestEntries();
      entries := map k | k in entries && k !in erase :: entries[k];
      assert entries == mid - SetOf(erase);
      EvictionLeaves(mid, cacheSize, entries);
      FreeRemoved(mid, index, entries);
    }

    /** The entries to evict. */
    method OldestEntries() returns (erase: seq<Path>)
      requires cacheSize <= |entries|
      ensures Evicted(entries, cacheSize, SetOf(erase))
    {
      var order := InOrder(entries);
      assert forall k :: k in order <==> k in SetOf(order);
      erase := SelectOldest(order, entries, |entries| - cacheSize + 1);
      CountOldest(entries, order, cacheSize, erase);
    }

    /** Caches the attributes of a file, pinned or not; isStat tells whether they could be made of the
        headers. A new key first makes room: free entries then stay within the cache's size. */
    method AddStat(key: Path, noTruncate: bool, isStat: bool, now: Time) returns (ok: bool)
      requires Valid() && IsPath(key)
      modifies this`entries, this`index
      ensures Valid() && ok == (isStat || (!noTruncate && cacheSize < 1))
      ensures !noTruncate && cacheSize < 1 ==> entries == old(entries)
      ensures isStat && (noTruncate || 1 <= cacheSize) ==>
                key in entries && entries[key] == Entry(now, 0, false, if noTruncate then 1 else 0)
      // what goes: the old entry and its twin, nothing while the cache is not full, else what a truncation takes
      ensures noTruncate || 1 <= cacheSize ==>
                RoomFor(old(entries), old(Fresh(now)), key, cacheSize, entries - {key})
      ensures key !in old(entries) && |old(entries)| < cacheSize ==> old(entries).Keys <= entries.Keys
      ensures !isStat && (noTruncate || 1 <= cacheSize) ==> key !in entries
      ensures forall k :: k in entries && k != key ==> k in old(entries) && entries[k] == old(entries)[k]
      ensures forall k :: Pinned(old(entries), k) && k !in Deleted(key) ==> Pinned(entries, k)
      ensures key !in old(entries) && 1 <= cacheSize ==> |Free(entries)| <= cacheSize
    {
      if !noTruncate && cacheSize < 1 {
        return true;
      }
      MakeRoom(key, now);
      assert entries - {key} == entries;
      if !isStat {
        return false;
      }
      Store(key, Entry(now, 0, false, if noTruncate then 1 else 0));
      return true;
    }

    /** A new entry, listed if it is pinned. */
    method Store(key: Path, e: Entry)
      requires Valid() && IsPath(key) && key !in entries && e.notruncate <= 1
      modifies this`entries, this`index
      ensures Valid() && entries == old(entries)[key := e] && entries - {key} == old(entries)
      ensures |Free(entries)| <= |Free(old(entries))| + 1
    {
      ghost var mid, list := entries, index;
      entries := entries[key := e];
      assert entries - {key} == mid;
      FreeAdded(mid, key, e);
      if 0 < e.notruncate {
        EntryPinned(mid, list, key, e);
        var _ := AddNotruncateCache(key);
      } else {
        EntryChanged(mid, list, key, e);
      }
    }

    /** The entry a lookup considers: that of the directory form first, if asked for. */
    function Looked(key: Path, overcheck: bool): (r: Path)
      reads this
      requires key != ""
      ensures r == key + "/" <==> overcheck && key[|key| - 1] != '/' && key + "/" in entries
      ensures r == key || r == key + "/"
    {
      if overcheck && key[|key| - 1] != '/' && key + "/" in entries then key + "/" else key
    }

    /** Looks an entry up. A hit makes it younger; an expired entry, one for a missing object when such
        entries are off, and one with another etag than expected are deleted on the way. */
    method GetStat(key: Path, overcheck: bool, otherEtag: bool, now: Time) returns (hit: bool)
      requires Valid() && key != ""
      modifies this`entries, this`index
      ensures Valid()
      ensures var k := old(Looked(key, overcheck));
              if k !in old(entries) then !hit && entries == old(entries)
              else
                var e := old(entries)[k];
                var stale := e.notruncate == 0 && isExpireTime && Expired(e, now, expireTime);
                && hit == (!stale && !e.noObject && !otherEtag)
                && entries == if hit then old(entries)[k := e.(hits := e.hits + 1, date := if isExpireInterval then now
                                                               else e.date)]
                              else if stale || (e.noObject && !useNegativeCache) || (!e.noObject && otherEtag)
                                  then old(entries) - Deleted(k)
                              else old(entries)
      // by the clock
      ensures var k := old(Looked(key, overcheck));
              k in old(entries) && IsClock(old(entries)[k].date) && IsClock(now) ==>
                && (isExpireTime && Outlived(old(entries)[k], now, expireTime) ==> !hit && k !in entries)
                && (!(isExpireTime && Outlived(old(entries)[k], now, expireTime)) ==>
                      hit == (!old(entries)[k].noObject && !otherEtag))
    {
      var path := Looked(key, overcheck);
      if path !in entries {
        return false;
      }
      var e := entries[path];
      if e.notruncate == 0 && isExpireTime && Expired(e, now, expireTime) {
        DelStatHasLock(path);
        return false;
      }
      if e.noObject {
        if !useNegativeCache {
          DelStatHasLock(path);
        }
        return false;
      }
      if otherEtag {
        DelStatHasLock(path);
        return false;
      }
      EntryChanged(entries, index, path, e.(hits := e.hits + 1, date := if isExpireInterval then now else e.date));
      entries := entries[path := e.(hits := e.hits + 1, date := if isExpireInterval then now else e.date)];
      return true;
    }

    /** What both Add methods do first: the old entry goes, or the cache is truncated if it is full. */
    method MakeRoom(key: Path, now: Time)
      requires Valid()
      modifies this`entries, this`index
      ensures Valid() && key !in entries
      ensures RoomFor(old(entries), old(Fresh(now)), key, cacheSize, entries)
      ensures forall k :: k in entries ==> k in old(entries) && entries[k] == old(entries)[k]
      ensures forall k :: Pinned(old(entries), k) && k !in Deleted(key) ==> Pinned(entries, k)
      ensures key !in old(entries) && 1 <= cacheSize ==> |Free(entries)| < cacheSize
    {
      if key in entries {
        DelStatHasLock(key);
      } else {
        TruncateCache(true, now);
        RoomMade(old(entries), old(Fresh(now)), cacheSize, entries);
      }
    }

    /** Remembers that there is no object; such entries are never pinned. */
    method AddNoObjectCache(key: Path, now: Time) returns (ok: bool)
      requires Valid() && IsPath(key)
      modifies this`entries, this`index
      ensures Valid() && ok
      ensures !useNegativeCache || cacheSize < 1 ==> entries == old(entries)
      ensures useNegativeCache && 1 <= cacheSize ==> key in entries && entries[key] == Entry(now, 0, true, 0)
      ensures useNegativeCache && 1 <= cacheSize ==>
                RoomFor(old(entries), old(Fresh(now)), key, cacheSize, entries - {key})
      ensures key !in old(entries) && |old(entries)| < cacheSize ==> old(entries).Keys <= entries.Keys
      ensures forall k :: k in entries && k != key ==> k in old(entries) && entries[k] == old(entries)[k]
      ensures forall k :: Pinned(old(entries), k) && k !in Deleted(key) ==> Pinned(entries, k)
      ensures key !in old(entries) && 1 <= cacheSize && useNegativeCache ==> |Free(entries)| <= cacheSize
    {
      if !useNegativeCache || cacheSize < 1 {
        return true;
      }
      MakeRoom(key, now);
      assert entries - {key} == entries;
      Store(key, Entry(now, 0, true, 0));
      return true;
    }
  }

  /** What goes before an entry is added: a key that is cached goes with its twin and nothing else. For a
      new key nothing goes while there are fewer entries than size, and otherwise what a truncation
      takes; unexpired are the entries that did not expire. */
  ghost predicate RoomFor(before: Cache, unexpired: Cache, key: Path, size: nat, mid: Cache) {
    if key in before then mid == before - Deleted(key)
    else if |before| < size || before == map[] then mid == before
    else Truncated(unexpired, size, mid)
  }

  lemma FreeAdded(mid: Cache, key: Path, e: Entry)
    requires key !in mid
    ensures |Free(mid[key := e])| <= |Free(mid)| + 1
  {
    var with := mid[key := e];
    assert Free(with) <= Free(mid) + {key};
    MoreElements(Free(with), Free(mid) + {key});
  }

  lemma RoomMade(before: Cache, mid: Cache, size: nat, after: Cache)
    requires if before != map[] && size <= |before| then Truncated(mid, size, after) else after == before
    ensures 1 <= size ==> |Free(after)| < size
  {
    FreePart(after);
    if before != map[] && size <= |before| {
      EvictionLeaves(mid, size, after);
    }
  }

  lemma CountOldest(mid: Cache, order: seq<Path>, size: nat, erase: seq<Path>)
    requires Unique(order) && SetOf(order) == mid.Keys && size <= |mid|
    requires SortedBy(erase, mid) && Oldest(SetOf(erase), Removable(order, mid), mid)
    requires var count := |mid| - size + 1;
             |erase| == Min(if count <= |Held(order, mid)| then 0 else count - |Held(order, mid)|,
                            |Removable(order, mid)|)
    ensures Evicted(mid, size, SetOf(erase))
  {
    assert forall k :: k in order <==> k in SetOf(order);
    assert Removable(order, mid) == Free(mid);
    assert Held(order, mid) == mid.Keys - Free(mid);
    RestSize(Free(mid), mid.Keys);
    SortedSize(erase, mid);
  }

  /** A file created in the root directory is pinned until its upload, and not shown until then. */
  method RootHidden(now: Time) returns (cache: StatCache, shown: seq<Path>)
    ensures fresh(cache) && cache.Valid() && PinnedIn(cache.entries, "/", "x") && shown == []
  {
    cache := new StatCache(100000);
    var added := cache.AddStat("/x", true, true, now);
    assert Slashed("/") + "x" == "/x";
    var ok;
    ok, shown := cache.GetNotruncateCache("/", []);
  }
}
