/** The cache stats file (PageList::Serialize and Deserialize of fdcache_page.cpp): page lists as
    text, and what reading such a text yields. */
module StatsTexts {
  import opened Pages
  import opened MixPlans
  import opened PageLists

  const LLONG_MAX: int := 0x7FFF_FFFF_FFFF_FFFF
  const INO_RANGE: int := 0x1_0000_0000_0000_0000

  // ---- numbers

  predicate IsDigit(c: char) {
    '0' <= c <= '9'
  }

  function DigitChar(d: int): (c: char)
    requires 0 <= d < 10
    ensures IsDigit(c) && c as int - '0' as int == d
  {
    ['0', '1', '2', '3', '4', '5', '6', '7', '8', '9'][d]
  }

  /** Decimal output. */
  function Show(n: nat): (s: string)
    ensures s != "" && forall i :: 0 <= i < |s| ==> IsDigit(s[i])
  {
    if n < 10 then [DigitChar(n)] else Show(n / 10) + [DigitChar(n % 10)]
  }

  /** The value of a digit string. */
  function Value(s: string): nat
    requires forall i :: 0 <= i < |s| ==> IsDigit(s[i])
  {
    if s == "" then 0
    else
      assert IsDigit(s[|s| - 1]);
      Value(s[..|s| - 1]) * 10 + (s[|s| - 1] as int - '0' as int)
  }

  predicate IsSpace(c: char) {
    c == ' ' || c == '\t' || c == '\n' || c == '\r' || c as int == 11 || c as int == 12
  }

  function SkipSpace(s: string): string {
    if s != "" && IsSpace(s[0]) then SkipSpace(s[1..]) else s
  }

  predicate Digits(s: string) {
    s != "" && forall i :: 0 <= i < |s| ==> IsDigit(s[i])
  }

  /** cvt_strtoofft in base 10: optional space and sign, then digits to the end; anything else, and a
      number out of range, counts as 0. */
  function Number(s: string): int {
    Signed(SkipSpace(s))
  }

  function Signed(t: string): int {
    var minus := t != "" && t[0] == '-';
    var digits := if t != "" && (t[0] == '-' || t[0] == '+') then t[1..] else t;
    if !Digits(digits) then 0
    else
      var n: int := Value(digits);
      if minus then (if n <= LLONG_MAX + 1 then -n else 0) else if n <= LLONG_MAX then n else 0
  }

  lemma {:induction false} ValueShow(n: nat)
    ensures Value(Show(n)) == n
  {
    if n < 10 {
      assert Show(n)[..0] == "";
    } else {
      ValueShow(n / 10);
      assert Show(n)[..|Show(n)| - 1] == Show(n / 10);
    }
  }

  /** A printed number reads back as itself as long as it fits in 63 bits, and as 0 beyond. */
  lemma NumberShow(n: nat)
    ensures Number(Show(n)) == if n <= LLONG_MAX then n else 0
  {
    ValueShow(n);
    assert IsDigit(Show(n)[0]);
    assert SkipSpace(Show(n)) == Show(n);
  }

  ghost predicate Spaces(s: string) {
    forall i :: 0 <= i < |s| ==> IsSpace(s[i])
  }

  ghost predicate IsSign(s: string) {
    s == "" || s == "+" || s == "-"
  }

  /** Space in front and a sign are accepted; the range is that of 64 bits. */
  lemma NumberSigned(pad: string, sign: string, n: int)
    requires Spaces(pad) && IsSign(sign) && 0 <= n
    ensures Number(pad + (sign + Show(n))) ==
              if sign == "-" then (if n <= LLONG_MAX + 1 then -n else 0) else if n <= LLONG_MAX then n else 0
  {
    var t := sign + Show(n);
    SignedShow(sign, n);
    SkipPad(pad, t);
  }

  lemma SignedShow(sign: string, n: int)
    requires IsSign(sign) && 0 <= n
    ensures !IsSpace((sign + Show(n))[0])
    ensures Signed(sign + Show(n)) ==
              if sign == "-" then (if n <= LLONG_MAX + 1 then -n else 0) else if n <= LLONG_MAX then n else 0
  {
    ValueShow(n);
    SignedDigits(sign, Show(n));
  }

  lemma SignedDigits(sign: string, d: string)
    requires IsSign(sign) && Digits(d)
    ensures !IsSpace((sign + d)[0])
    ensures Signed(sign + d) ==
              if sign == "-" then (if Value(d) <= LLONG_MAX + 1 then -(Value(d) as int) else 0)
              else if Value(d) <= LLONG_MAX then Value(d) else 0
  {
    assert IsDigit(d[0]);
    if sign == "" { assert sign + d == d; } else { assert (sign + d)[1..] == d; }
  }

  lemma {:induction false} SkipPad(pad: string, t: string)
    requires Spaces(pad) && (t == "" || !IsSpace(t[0]))
    ensures SkipSpace(pad + t) == t
  {
    if pad == "" {
      assert pad + t == t;
    } else {
      assert (pad + t)[1..] == pad[1..] + t;
      SkipPad(pad[1..], t);
    }
  }

  /** Anything else counts as 0. */
  lemma NumberMalformed(s: string)
    requires forall pad, sign, digits ::
               Spaces(pad) && IsSign(sign) && Digits(digits) ==> s != pad + (sign + digits)
    ensures Number(s) == 0
  {
    var t := SkipSpace(s);
    var pad := SkippedPart(s);
    if t != "" && (t[0] == '-' || t[0] == '+') {
      var sign := t[..1];
      assert sign == if t[0] == '-' then "-" else "+";
      assert s == pad + (sign + t[1..]);
      assert !Digits(t[1..]);
    } else {
      var sign := "";
      assert IsSign(sign) && sign + t == t;
      assert !Digits(t);
    }
  }

  lemma {:induction false} SkippedPart(s: string) returns (pad: string)
    ensures Spaces(pad) && s == pad + SkipSpace(s)
  {
    if s != "" && IsSpace(s[0]) {
      var rest := SkippedPart(s[1..]);
      pad := [s[0]] + rest;
      assert pad + SkipSpace(s) == [s[0]] + (rest + SkipSpace(s[1..]));
    } else {
      pad := "";
    }
  }

  // ---- lines and fields

  function Find(s: string, d: char): (i: nat)
    ensures i <= |s| && (i < |s| ==> s[i] == d) && forall j :: 0 <= j < i ==> s[j] != d
  {
    if s == "" || s[0] == d then 0
    else
      var i := Find(s[1..], d);
      assert forall j :: 1 <= j < i + 1 ==> s[j] == s[1..][j - 1];
      i + 1
  }

  /** What repeated getline calls yield: the pieces between delimiters, without an empty last one. */
  function Tokens(s: string, d: char): seq<string>
    decreases |s|
  {
    if s == "" then []
    else
      var i := Find(s, d);
      if i == |s| then [s] else [s[..i]] + Tokens(s[i + 1..], d)
  }

  predicate Free(s: string, d: char) {
    forall i :: 0 <= i < |s| ==> s[i] != d
  }

  lemma TokensOne(s: string, d: char)
    requires Free(s, d) && s != ""
    ensures Tokens(s, d) == [s]
  {
    assert Find(s, d) == |s|;
  }

  lemma TokensCons(s: string, d: char, rest: string)
    requires Free(s, d)
    ensures Tokens(s + [d] + rest, d) == [s] + Tokens(rest, d)
  {
    var t := s + [d] + rest;
    var i := Find(t, d);
    assert t[|s|] == d && forall j :: 0 <= j < |s| ==> t[j] == s[j];
    assert t[..|s|] == s && t[|s| + 1..] == rest;
  }

  /** Adding one more piece at the end. */
  lemma {:induction false} TokensAppend(s: string, d: char, last: string)
    requires s != "" && s[|s| - 1] != d && Free(last, d) && last != ""
    ensures Tokens(s + [d] + last, d) == Tokens(s, d) + [last]
    decreases |s|
  {
    var i := Find(s, d);
    if i == |s| {
      TokensCons(s, d, last);
      TokensOne(last, d);
    } else {
      AppendTail(s, d, last, i);
      var rest := s[i + 1..];
      TokensAppend(rest, d, last);
      TokensCons(s[..i], d, rest + [d] + last);
      TokensCons(s[..i], d, rest);
      Regroup([s[..i]], Tokens(rest, d), [last]);
    }
  }

  lemma Regroup(a: seq<string>, b: seq<string>, c: seq<string>)
    ensures a + (b + c) == a + b + c
  {
  }

  lemma AppendTail(s: string, d: char, last: string, i: nat)
    requires i < |s| && s[i] == d && s[|s| - 1] != d
    ensures s == s[..i] + [d] + s[i + 1..]
    ensures s + [d] + last == s[..i] + [d] + (s[i + 1..] + [d] + last)
    ensures s[i + 1..] != "" && s[i + 1..][|s[i + 1..]| - 1] != d
  {
  }

  /** The text up to the first NUL, which ends it for the string stream. */
  function UpToNul(text: string): string {
    text[..Find(text, 0 as char)]
  }

  // ---- writing

  function Flag(b: bool): string {
    if b then "1" else "0"
  }

  /** A field and what follows it on the line. */
  function Field(a: string, rest: string): string {
    a + [':'] + rest
  }

  function Line(p: Page): string
    requires 0 <= p.offset && 0 <= p.bytes
  {
    Field(Show(p.offset), Field(Show(p.bytes), Field(Flag(p.st.loaded), Flag(p.st.modified))))
  }

  function Head(inode: nat, total: nat): string {
    Field(Show(inode), Show(total))
  }

  ghost predicate Nonnegative(ps: seq<Page>) {
    forall p :: p in ps ==> 0 <= p.offset && 0 <= p.bytes
  }

  ghost function JoinLines(head: string, lines: seq<string>): string {
    if lines == [] then head else JoinLines(head, lines[..|lines| - 1]) + ['\n'] + lines[|lines| - 1]
  }

  ghost function LinesFor(ps: seq<Page>): seq<string>
    requires Nonnegative(ps)
  {
    if ps == [] then []
    else
      assert ps[|ps| - 1] in ps && forall p :: p in ps[..|ps| - 1] ==> p in ps;
      LinesFor(ps[..|ps| - 1]) + [Line(ps[|ps| - 1])]
  }

  lemma PagesNonnegative(ps: seq<Page>)
    requires WellFormed(ps)
    ensures Nonnegative(ps) && 0 <= SizeOf(ps)
  {
    WellFormedLaid(ps);
    forall p | p in ps ensures 0 <= p.offset && 0 <= p.bytes {
      var k :| 0 <= k < |ps| && ps[k] == p;
      LaidIndex(ps, k);
    }
  }

  method Serialize(list: PageList, inode: nat) returns (text: string)
    requires list.Valid()
    ensures Nonnegative(list.pages) && 0 <= list.Size()
    ensures text == JoinLines(Head(inode, list.Size()), LinesFor(list.pages))
  {
    PagesNonnegative(list.pages);
    var ps, head := list.pages, Head(inode, list.Size());
    text := head;
    for k := 0 to |ps|
      invariant Nonnegative(ps[..k]) && text == JoinLines(head, LinesFor(ps[..k]))
    {
      LineNext(ps, k, head);
      text := text + ['\n'] + Line(ps[k]);
    }
    assert ps[..|ps|] == ps;
  }

  lemma {:induction false} LineNext(ps: seq<Page>, k: nat, head: string)
    requires Nonnegative(ps) && k < |ps|
    ensures ps[k] in ps && Nonnegative(ps[..k]) && Nonnegative(ps[..k + 1])
    ensures JoinLines(head, LinesFor(ps[..k + 1])) == JoinLines(head, LinesFor(ps[..k])) + ['\n'] + Line(ps[k])
  {
    assert forall p :: p in ps[..k + 1] ==> p in ps;
    assert ps[..k + 1][..k] == ps[..k] && ps[..k + 1][k] == ps[k];
    JoinPush(head, LinesFor(ps[..k]), Line(ps[k]));
  }

  lemma JoinPush(head: string, lines: seq<string>, l: string)
    ensures JoinLines(head, lines + [l]) == JoinLines(head, lines) + ['\n'] + l
  {
    assert (lines + [l])[..|lines|] == lines;
  }

  // ---- reading

  datatype Row = Bad | Row(offset: int, size: int, st: Status)

  /** One line: three fields are required, a missing fourth means unmodified. */
  function RowOf(line: string): Row {
    var f := Tokens(line, ':');
    if |f| < 3 then Bad
    else Row(Number(f[0]), Number(f[1]), Status(Number(f[2]) == 1, 4 <= |f| && Number(f[3]) == 1))
  }

  datatype HeadLine = BadHead | HeadLine(inode: int, total: int)

  /** The head line; without a second field it is of the old format and names no inode. */
  function HeadOf(line: string): HeadLine {
    var f := Tokens(line, ':');
    if |f| < 1 then BadHead
    else if |f| < 2 then HeadLine(0, Number(f[0]))
    else
      var inode := Number(f[0]) % INO_RANGE;
      if inode == 0 then BadHead else HeadLine(inode, Number(f[1]))
  }

  ghost function RowsOf(lines: seq<string>): seq<Row> {
    if lines == [] then [] else RowsOf(lines[..|lines| - 1]) + [RowOf(lines[|lines| - 1])]
  }

  ghost predicate AllGood(rows: seq<Row>) {
    forall r :: r in rows ==> r.Row?
  }

  /** No row has a negative number. */
  ghost predicate NoneNegative(rows: seq<Row>) {
    forall r :: r in rows && r.Row? ==> 0 <= r.offset && 0 <= r.size
  }

  /** The byte map that the rows paint one over the other. */
  ghost function Painting(rows: seq<Row>): seq<Status>
    requires AllGood(rows) && NoneNegative(rows)
  {
    if rows == [] then []
    else
      var last := rows[|rows| - 1];
      assert last in rows;
      Overlay(Painting(rows[..|rows| - 1]), last.offset, last.size, last.st)
  }

  /** Inode and size of the head agree with the file at hand and with the rows. */
  ghost predicate Accepted(lines: seq<string>, inode: nat)
    requires lines != [] ==> NoneNegative(RowsOf(lines[1..]))
  {
    && lines != [] && HeadOf(lines[0]).HeadLine?
    && (HeadOf(lines[0]).inode != 0 ==> HeadOf(lines[0]).inode == inode)
    && AllGood(RowsOf(lines[1..])) && HeadOf(lines[0]).total == |Painting(RowsOf(lines[1..]))|
  }

  /** What follows a NUL is not read. */
  lemma NulEnds(text: string, rest: string)
    requires Free(text, 0 as char)
    ensures LinesOf(text + [0 as char] + rest) == LinesOf(text) == Tokens(text, '\n')
  {
    var all := text + [0 as char] + rest;
    assert all[|text|] == 0 as char && forall j :: 0 <= j < |text| ==> all[j] == text[j];
    assert UpToNul(all) == text == UpToNul(text);
  }

  ghost function LinesOf(text: string): seq<string> {
    Tokens(UpToNul(text), '\n')
  }

  /** PageList::page_status of two flags. */
  function StatusOf(st: Status): (r: PageStatus)
    ensures r.Flags() == st
  {
    if st.loaded then (if st.modified then LoadModified else Loaded)
        else (if st.modified then Modified else NotLoadModified)
  }

  /** Reads a stats file. An empty file stands for an empty cache; a text that names another inode or
      another size is rejected and leaves the list empty. */
  method Deserialize(list: PageList, text: string, inode: nat) returns (ok: bool)
    requires LinesOf(text) != [] ==> NoneNegative(RowsOf(LinesOf(text)[1..]))
    modifies list
    ensures list.Valid() && !list.isShrink
    ensures text == "" ==> ok && list.pages == [Page(0, 0, GAP)]
    ensures text != "" ==> ok == Accepted(LinesOf(text), inode)
    ensures text != "" && ok ==> list.Statuses() == Painting(RowsOf(LinesOf(text)[1..]))
    ensures text != "" && ok ==> SmallKept(RowsOf(LinesOf(text)[1..]), list.pages)
    ensures !ok ==> list.pages == []
  {
    if text == "" {
      list.Init(0, false, false);
      return true;
    }
    var lines := Tokens(UpToNul(text), '\n');
    list.Clear();
    if lines == [] {
      return false;
    }
    var head := HeadOf(lines[0]);
    if head.BadHead? || (0 != head.inode && head.inode != inode) {
      return false;
    }
    ok := ReadRows(list, lines[1..]);
    if !ok {
      list.Clear();
      return false;
    }
    if head.total != list.Size() {
      list.Clear();
      return false;
    }
  }

  /** Without rows there is no page; one row at byte 0 is one page, empty or not. */
  ghost predicate SmallKept(rows: seq<Row>, ps: seq<Page>) {
    && (rows == [] ==> ps == [])
    && (|rows| == 1 && rows[0].Row? && rows[0].offset == 0 ==> ps == [Page(0, rows[0].size, rows[0].st)])
  }

  method ReadRows(list: PageList, lines: seq<string>) returns (ok: bool)
    requires list.Valid() && list.pages == [] && NoneNegative(RowsOf(lines))
    modifies list
    ensures list.Valid() && list.isShrink == old(list.isShrink)
    ensures ok == AllGood(RowsOf(lines))
    ensures ok ==> list.Statuses() == Painting(RowsOf(lines)) && SmallKept(RowsOf(lines), list.pages)
  {
    ghost var done: seq<Row> := [];
    for k := 0 to |lines|
      invariant list.Valid() && list.isShrink == old(list.isShrink)
      invariant done == RowsOf(lines[..k]) && |done| == k && AllGood(done) && NoneNegative(done)
      invariant list.Statuses() == Painting(done) && SmallKept(done, list.pages)
    {
      var row := RowOf(lines[k]);
      RowsNext(lines, k);
      if row.Bad? {
        return false;
      }
      PaintPush(done, row);
      list.SetPageLoadedStatus(row.offset, row.size, StatusOf(row.st));
      done := done + [row];
    }
    assert lines[..|lines|] == lines;
    return true;
  }

  lemma RowsNext(lines: seq<string>, k: nat)
    requires k < |lines|
    ensures RowsOf(lines[..k + 1]) == RowsOf(lines[..k]) + [RowOf(lines[k])]
    ensures RowOf(lines[k]) in RowsOf(lines)
  {
    assert lines[..k + 1][..k] == lines[..k];
    RowsIn(lines, k);
  }

  lemma {:induction false} RowsIn(lines: seq<string>, k: nat)
    requires k < |lines|
    ensures RowOf(lines[k]) in RowsOf(lines)
  {
    if k < |lines| - 1 {
      RowsIn(lines[..|lines| - 1], k);
    }
  }

  lemma PaintPush(rows: seq<Row>, r: Row)
    requires AllGood(rows) && NoneNegative(rows) && r.Row? && 0 <= r.offset && 0 <= r.size
    ensures AllGood(rows + [r]) && NoneNegative(rows + [r])
    ensures Painting(rows + [r]) == Overlay(Painting(rows), r.offset, r.size, r.st)
  {
    assert forall x :: x in rows + [r] <==> x in rows || x == r;
    assert (rows + [r])[..|rows|] == rows;
  }

  // ---- the round trip

  lemma FlagText(b: bool)
    ensures Flag(b) != "" && Free(Flag(b), ':') && (Number(Flag(b)) == 1 <==> b)
  {
    var d := if b then 1 else 0;
    assert Show(d) == Flag(b);
    NumberShow(d);
  }

  lemma ShowFree(n: nat, c: char)
    requires !IsDigit(c)
    ensures Free(Show(n), c)
  {
    var s := Show(n);
    forall i | 0 <= i < |s| ensures s[i] != c { assert IsDigit(s[i]); }
  }

  lemma FieldFree(a: string, rest: string, c: char)
    requires Free(a, c) && Free(rest, c) && c != ':'
    ensures Free(Field(a, rest), c) && Field(a, rest) != ""
  {
  }

  lemma FieldTokens(a: string, rest: string)
    requires Free(a, ':')
    ensures Tokens(Field(a, rest), ':') == [a] + Tokens(rest, ':')
  {
    TokensCons(a, ':', rest);
  }

  lemma LineFree(p: Page, c: char)
    requires 0 <= p.offset && 0 <= p.bytes && !IsDigit(c) && c != ':'
    ensures Line(p) != "" && Free(Line(p), c)
  {
    var x, y, z, w := Show(p.offset), Show(p.bytes), Flag(p.st.loaded), Flag(p.st.modified);
    ShowFree(p.offset, c);
    ShowFree(p.bytes, c);
    FieldFree(z, w, c);
    FieldFree(y, Field(z, w), c);
    FieldFree(x, Field(y, Field(z, w)), c);
  }

  lemma LineRow(p: Page)
    requires 0 <= p.offset <= LLONG_MAX && 0 <= p.bytes <= LLONG_MAX
    ensures RowOf(Line(p)) == Row(p.offset, p.bytes, p.st)
  {
    var x, y, z, w := Show(p.offset), Show(p.bytes), Flag(p.st.loaded), Flag(p.st.modified);
    FlagText(p.st.loaded);
    FlagText(p.st.modified);
    NumberShow(p.offset);
    NumberShow(p.bytes);
    FourTokens(x, y, z, w, p.offset, p.bytes);
    var f := Tokens(Line(p), ':');
    assert f[0] == x && f[1] == y && f[2] == z && f[3] == w;
  }

  /** A line of the old format has no fourth field and says nothing of modified bytes; one with fewer
      fields is refused. */
  lemma OldRow(offset: nat, bytes: nat, loaded: bool)
    requires offset <= LLONG_MAX && bytes <= LLONG_MAX
    ensures RowOf(Field(Show(offset), Field(Show(bytes), Flag(loaded)))) == Row(offset, bytes, Status(loaded, false))
    ensures RowOf(Field(Show(offset), Show(bytes))) == Bad && RowOf(Show(offset)) == Bad
  {
    var x, y, z := Show(offset), Show(bytes), Flag(loaded);
    NumberShow(offset);
    NumberShow(bytes);
    FlagText(loaded);
    ThreeTokens(x, y, z, offset, bytes);
    var f := Tokens(Field(x, Field(y, z)), ':');
    assert f[0] == x && f[1] == y && f[2] == z;
  }

  lemma ThreeTokens(x: string, y: string, z: string, n: nat, m: nat)
    requires x == Show(n) && y == Show(m) && Free(z, ':') && z != ""
    ensures Tokens(Field(x, Field(y, z)), ':') == [x, y, z]
    ensures Tokens(Field(x, y), ':') == [x, y] && Tokens(x, ':') == [x]
  {
    ShowFree(n, ':');
    ShowFree(m, ':');
    FieldTokens(x, Field(y, z));
    FieldTokens(x, y);
    FieldTokens(y, z);
    TokensOne(x, ':');
    TokensOne(y, ':');
    TokensOne(z, ':');
  }

  lemma FourTokens(x: string, y: string, z: string, w: string, n: nat, m: nat)
    requires x == Show(n) && y == Show(m) && Free(z, ':') && Free(w, ':') && w != ""
    ensures Tokens(Field(x, Field(y, Field(z, w))), ':') == [x, y, z, w]
  {
    ShowFree(n, ':');
    ShowFree(m, ':');
    FieldTokens(x, Field(y, Field(z, w)));
    FieldTokens(y, Field(z, w));
    FieldTokens(z, w);
    TokensOne(w, ':');
  }

  /** A written head is accepted for its inode exactly if the inode is not 0 and fits in 63 bits. */
  lemma HeadBack(inode: nat, total: nat)
    requires total <= LLONG_MAX && inode < INO_RANGE
    ensures var h := HeadOf(Head(inode, total));
            if 0 < inode <= LLONG_MAX then h == HeadLine(inode, total) else h == BadHead
  {
    NumberShow(inode);
    NumberShow(total);
    ShowFree(inode, ':');
    ShowFree(total, ':');
    FieldTokens(Show(inode), Show(total));
    TokensOne(Show(total), ':');
    TwoFields(Head(inode, total), Show(inode), Show(total));
  }

  /** A head of the old format is the size alone, which any inode agrees with. */
  lemma OldHead(total: nat)
    requires total <= LLONG_MAX
    ensures HeadOf(Show(total)) == HeadLine(0, total)
  {
    NumberShow(total);
    ShowFree(total, ':');
    TokensOne(Show(total), ':');
  }

  lemma TwoFields(line: string, a: string, b: string)
    requires Tokens(line, ':') == [a] + [b] && 0 <= Number(a) <= LLONG_MAX
    ensures HeadOf(line) == if Number(a) == 0 then BadHead else HeadLine(Number(a), Number(b))
  {
    var f := Tokens(line, ':');
    assert |f| == 2 && f[0] == a && f[1] == b;
    assert Number(a) % INO_RANGE == Number(a);
  }

  lemma HeadFree(inode: nat, total: nat, c: char)
    requires !IsDigit(c) && c != ':'
    ensures Head(inode, total) != "" && Free(Head(inode, total), c)
  {
    ShowFree(inode, c);
    ShowFree(total, c);
    FieldFree(Show(inode), Show(total), c);
  }

  ghost function RowsFor(ps: seq<Page>): seq<Row> {
    if ps == [] then [] else RowsFor(ps[..|ps| - 1]) + [Row(ps[|ps| - 1].offset, ps[|ps| - 1].bytes, ps[|ps| - 1].st)]
  }

  lemma {:induction false} LinesRows(ps: seq<Page>)
    requires Fits(ps) && Nonnegative(ps)
    ensures RowsOf(LinesFor(ps)) == RowsFor(ps) && |LinesFor(ps)| == |ps|
  {
    if ps != [] {
      FitsFront(ps);
      LinesRows(ps[..|ps| - 1]);
      LineRow(ps[|ps| - 1]);
      assert LinesFor(ps)[..|ps| - 1] == LinesFor(ps[..|ps| - 1]);
    }
  }

  ghost predicate Fits(ps: seq<Page>) {
    forall p :: p in ps ==> 0 <= p.offset <= LLONG_MAX && 0 <= p.bytes <= LLONG_MAX
  }

  /** A line a text can carry: not empty, no line break, no NUL. */
  ghost predicate IsLine(l: string) {
    l != "" && Free(l, '\n') && Free(l, 0 as char)
  }

  /** The lines of a text are the lines it was made of. */
  lemma {:induction false} TextLines(head: string, lines: seq<string>)
    requires IsLine(head) && AreLines(lines)
    ensures var t := JoinLines(head, lines);
            Closed(t) && Free(t, 0 as char) && Tokens(t, '\n') == [head] + lines
  {
    if lines == [] {
      TokensOne(head, '\n');
    } else {
      var front, last := lines[..|lines| - 1], lines[|lines| - 1];
      FrontLines(lines);
      TextLines(head, front);
      TextStep(JoinLines(head, front), last);
      assert [head] + lines == ([head] + front) + [last];
    }
  }

  ghost predicate AreLines(lines: seq<string>) {
    forall l :: l in lines ==> IsLine(l)
  }

  lemma {:induction false} FrontLines(lines: seq<string>)
    requires AreLines(lines) && lines != []
    ensures AreLines(lines[..|lines| - 1]) && IsLine(lines[|lines| - 1])
  {
    assert lines[|lines| - 1] in lines && forall l :: l in lines[..|lines| - 1] ==> l in lines;
  }

  ghost predicate Closed(t: string) {
    t != "" && t[|t| - 1] != '\n'
  }

  lemma TextStep(t: string, l: string)
    requires Closed(t) && IsLine(l) && Free(t, 0 as char)
    ensures var longer := t + ['\n'] + l;
            Closed(longer) && Free(longer, 0 as char) && Tokens(longer, '\n') == Tokens(t, '\n') + [l]
  {
    TokensAppend(t, '\n', l);
    var longer := t + ['\n'] + l;
    assert longer[|longer| - 1] == l[|l| - 1];
  }

  lemma {:induction false} PageLines(ps: seq<Page>)
    requires Nonnegative(ps)
    ensures forall l :: l in LinesFor(ps) ==> IsLine(l)
  {
    if ps != [] {
      var front, last := ps[..|ps| - 1], ps[|ps| - 1];
      assert last in ps && forall p :: p in front ==> p in ps;
      PageLines(front);
      LineFree(last, '\n');
      LineFree(last, 0 as char);
    }
  }

  /** The rows of a page list paint its byte map. */
  lemma {:induction false} RowsPaint(ps: seq<Page>)
    requires Chain(ps)
    ensures AllGood(RowsFor(ps)) && NoneNegative(RowsFor(ps)) && |RowsFor(ps)| == |ps|
    ensures 0 <= SizeOf(ps) && Painting(RowsFor(ps)) == Flat(ps)
  {
    if ps != [] {
      var front, last := ps[..|ps| - 1], ps[|ps| - 1];
      ChainFront(ps);
      RowsPaint(front);
      PaintPush(RowsFor(front), Row(last.offset, last.bytes, last.st));
      FlatPush(front, last);
      assert front + [last] == ps;
    }
  }

  lemma FitsFront(ps: seq<Page>)
    requires Fits(ps) && ps != []
    ensures Fits(ps[..|ps| - 1]) && 0 <= ps[|ps| - 1].offset <= LLONG_MAX && 0 <= ps[|ps| - 1].bytes <= LLONG_MAX
  {
    assert ps[|ps| - 1] in ps && forall p :: p in ps[..|ps| - 1] ==> p in ps;
  }

  lemma FlatPush(front: seq<Page>, last: Page)
    requires 0 <= SizeOf(front) == last.offset && 0 <= last.bytes
    ensures Flat(front + [last]) == Overlay(Flat(front), last.offset, last.bytes, last.st)
  {
    AtPush(front, last, GAP);
  }

  /** Writing a page list and reading it back gives the same list, exactly if the inode is not 0 and
      fits in 63 bits; otherwise the text is rejected. */
  method SaveAndLoad(list: PageList, inode: nat) returns (ok: bool, copy: PageList)
    requires list.Valid() && list.Size() <= LLONG_MAX && inode < INO_RANGE
    ensures fresh(copy) && copy.Valid()
    ensures ok <==> 0 < inode <= LLONG_MAX
    ensures ok ==> copy.pages == list.pages && !copy.isShrink
  {
    var text := Serialize(list, inode);
    copy := new PageList(0, false, false, false);
    ghost var lines := SavedText(list.pages, inode, text);
    ok := Deserialize(copy, text, inode);
    if ok { SamePages(list.pages, copy.pages, lines); }
  }

  /** The lines of a saved list. */
  ghost predicate Saved(ps: seq<Page>, lines: seq<string>) {
    && lines != [] && RowsOf(lines[1..]) == RowsFor(ps) && |RowsFor(ps)| == |ps| && 0 <= SizeOf(ps)
    && AllGood(RowsFor(ps)) && NoneNegative(RowsFor(ps)) && Painting(RowsFor(ps)) == Flat(ps)
  }

  lemma SavedFits(ps: seq<Page>)
    requires WellFormed(ps) && SizeOf(ps) <= LLONG_MAX
    ensures Fits(ps) && Nonnegative(ps) && 0 <= SizeOf(ps) && Laid(ps) && Contiguous(ps)
  {
    PagesNonnegative(ps);
    WellFormedLaid(ps);
    forall p | p in ps ensures 0 <= p.offset <= LLONG_MAX && 0 <= p.bytes <= LLONG_MAX {
      var k :| 0 <= k < |ps| && ps[k] == p;
      LaidIndex(ps, k);
    }
  }

  lemma SavedText(ps: seq<Page>, inode: nat, text: string) returns (lines: seq<string>)
    requires WellFormed(ps) && SizeOf(ps) <= LLONG_MAX && inode < INO_RANGE && Nonnegative(ps) && 0 <= SizeOf(ps)
    requires text == JoinLines(Head(inode, SizeOf(ps)), LinesFor(ps))
    ensures text != "" && lines == LinesOf(text) && Saved(ps, lines)
    ensures Accepted(lines, inode) <==> 0 < inode <= LLONG_MAX
  {
    SavedFits(ps);
    lines := SavedLines(ps, Head(inode, SizeOf(ps)), inode, SizeOf(ps), text);
    LinesRows(ps);
    RowsPaint(ps);
    HeadBack(inode, SizeOf(ps));
    assert |Flat(ps)| == SizeOf(ps);
  }

  lemma SavedLines(ps: seq<Page>, head: string, inode: nat, total: nat, text: string) returns (lines: seq<string>)
    requires Fits(ps) && Nonnegative(ps) && head == Head(inode, total) && text == JoinLines(head, LinesFor(ps))
    ensures text != "" && lines == LinesOf(text) && lines != [] && lines[0] == head && lines[1..] == LinesFor(ps)
  {
    HeadFree(inode, total, '\n');
    HeadFree(inode, total, 0 as char);
    PageLines(ps);
    TextLines(head, LinesFor(ps));
    assert Find(text, 0 as char) == |text| && text[..|text|] == text;
    lines := [head] + LinesFor(ps);
  }

  lemma SamePages(ps: seq<Page>, qs: seq<Page>, lines: seq<string>)
    requires WellFormed(ps) && WellFormed(qs) && Saved(ps, lines)
    requires 0 <= SizeOf(qs) && Flat(qs) == Flat(ps) && SmallKept(RowsOf(lines[1..]), qs)
    ensures qs == ps
  {
    assert |Flat(ps)| == SizeOf(ps) && |Flat(qs)| == SizeOf(qs);
    if 0 < SizeOf(ps) {
      FlatUnique(ps, qs);
    } else if ps != [] {
      EmptyPage(ps);
      assert RowsFor(ps) == [Row(0, 0, ps[0].st)];
    }
  }

  lemma EmptyPage(ps: seq<Page>)
    requires WellFormed(ps) && ps != [] && SizeOf(ps) == 0
    ensures |ps| == 1 && ps[0].offset == 0 && ps[0].bytes == 0
  {
    WellFormedLaid(ps);
  }
}
