/**
  Mapping the wrapped rows of a block back to its logical lines, and copying a selection of rows.
  Every character is one column wide, and a row carries no terminal sequences.
 */
module Selection {
  import opened Prelude

  /** The vertical bar a renderer puts before the continuation of a quoted line. */
  const BAR := '\U{2502}'

  datatype CopyRow = CopyRow(line: string, start: nat, text: string, owner: int, id: int, before: string, skip: bool)

  // ---- finding a row's text in its source ----

  function SliceByColumn(s: string, start: nat, length: nat): string {
    if |s| <= start then "" else Prefix(s[start..], length)
  }

  predicate OccursAt(s: string, t: string, at: nat) {
    at + |t| <= |s| && s[at..at + |t|] == t
  }

  function IndexOf(s: string, t: string, from: nat): (r: Option<nat>)
    requires from <= |s|
    ensures r.Some? ==> from <= r.value && OccursAt(s, t, r.value)
    ensures forall k: nat :: from <= k && (r.Some? ==> k < r.value) ==> !OccursAt(s, t, k)
    decreases |s| - from
  {
    if OccursAt(s, t, from) then Some(from)
    else if from == |s| then None
    else IndexOf(s, t, from + 1)
  }

  predicate IsHang(c: char) {
    IsSpace(c) || c == BAR
  }

  /** How far the white space and bars at the head of a row reach. */
  function HangEnd(s: string): (n: nat)
    ensures n <= |s| && (forall i :: 0 <= i < n ==> IsHang(s[i])) && (n < |s| ==> !IsHang(s[n]))
  {
    if s != "" && IsHang(s[0]) then 1 + HangEnd(s[1..]) else 0
  }

  function DropBars(s: string): string {
    if BAR in s[..HangEnd(s)] then s[HangEnd(s)..] else s
  }

  /** The visible part of a row between its side paddings. */
  function Body(line: string, paddingX: nat): string {
    TrimEnd(SliceByColumn(line, paddingX, if |line| < paddingX * 2 then 0 else |line| - paddingX * 2))
  }

  function Candidates(body: string, offset: nat): (cs: seq<string>)
    ensures forall i :: 0 <= i < |cs| ==> |cs[i]| <= |body| && cs[i] == body[|body| - |cs[i]|..]
  {
    if offset != 0 then [body, TrimStart(body), DropBars(body)] else [body]
  }

  datatype Found = Found(text: string, at: nat)

  /** Where a fragment continues a line after `offset`, skipping nothing but white space. */
  function Fit(source: string, offset: nat, text: string): (r: Option<Found>)
    requires offset <= |source|
    ensures r.Some? ==>
      offset <= r.value.at && OccursAt(source, r.value.text, r.value.at) && Blank(source[offset..r.value.at])
    ensures r.Some? ==> r.value.text == text && (text != "" || Blank(source))
  {
    var at := IndexOf(source, text, offset);
    if at.Some? && Blank(source[offset..at.value]) && (text != "" || Blank(source)) then Some(Found(text, at.value))
    else None
  }

  function FirstFit(source: string, offset: nat, candidates: seq<string>): (r: Option<Found>)
    requires offset <= |source|
    ensures r.Some? ==> r.value.text in candidates && Fit(source, offset, r.value.text) == r
  {
    if candidates == [] then None
    else
      var fit := Fit(source, offset, candidates[0]);
      if fit.Some? then fit else FirstFit(source, offset, candidates[1..])
  }

  // ---- mapping the rows ----

  function Unmapped(line: string, owner: int): CopyRow {
    CopyRow(line, 0, "", owner, -1, "", true)
  }

  function MappedRow(line: string, owner: int, id: nat, source: string, offset: nat, found: Found,
                     paddingX: nat): CopyRow
    requires offset <= found.at && found.at + |found.text| <= |source| && |found.text| <= |Body(line, paddingX)|
  {
    var end := found.at + |found.text|;
    CopyRow(line, paddingX + |Body(line, paddingX)| - |found.text|,
            source[found.at..if Blank(source[end..]) then |source| else end],
            owner, id, source[offset..found.at], false)
  }

  /** How far the rows have been mapped: the line being matched and how much of it is used. */
  datatype Progress = Progress(rows: seq<CopyRow>, id: nat, offset: nat)

  datatype Block = Block(owner: int, lines: seq<string>, logical: seq<string>, paddingX: nat, paddingY: nat)

  predicate Within(b: Block, p: Progress) {
    && |p.rows| == |b.lines| && p.id <= |b.logical|
    && (p.offset != 0 ==> p.id < |b.logical| && p.offset <= |b.logical[p.id]|)
  }

  function Start(b: Block): (p: Progress)
    ensures Within(b, p)
  {
    Progress(seq(|b.lines|, i requires 0 <= i < |b.lines| => Unmapped(b.lines[i], b.owner)), 0, 0)
  }

  /** One row: match it to the current line, and go on to the next line once only white space is left of it. */
  function Step(b: Block, p: Progress, row: nat): (r: Option<Progress>)
    requires Within(b, p) && row < |b.lines|
    ensures r.Some? ==> Within(b, r.value)
  {
    if p.id == |b.logical| then None
    else
      var source := b.logical[p.id];
      var body := Body(b.lines[row], b.paddingX);
      var found := FirstFit(source, p.offset, Candidates(body, p.offset));
      if found.None? then None
      else
        var end := found.value.at + |found.value.text|;
        var rows := p.rows[row := MappedRow(b.lines[row], b.owner, p.id, source, p.offset, found.value, b.paddingX)];
        Some(if Blank(source[end..]) then Progress(rows, p.id + 1, 0) else Progress(rows, p.id, end))
  }

  /** The progress after the rows before `row`. */
  function MapTo(b: Block, row: nat): (r: Option<Progress>)
    requires row <= |b.lines|
    ensures r.Some? ==> Within(b, r.value)
  {
    if row <= b.paddingY then Some(Start(b))
    else
      var p := MapTo(b, row - 1);
      if p.None? then None else Step(b, p.value, row - 1)
  }

  /** The row after the last one that holds text. */
  function Last(b: Block): (n: nat)
    ensures n <= |b.lines|
  {
    if |b.lines| - b.paddingY < b.paddingY then if b.paddingY < |b.lines| then b.paddingY else |b.lines|
    else |b.lines| - b.paddingY
  }

  function Mapped(b: Block): Option<seq<CopyRow>> {
    var p := MapTo(b, Last(b));
    if p.Some? && p.value.id == |b.logical| then Some(p.value.rows) else None
  }

  // ---- the rows spell the lines ----

  /** What the rows of a line hold, in order. */
  function Joined(rows: seq<CopyRow>, id: int): string {
    if rows == [] then ""
    else
      var row := rows[|rows| - 1];
      Joined(rows[..|rows| - 1], id) + (if row.id == id then row.before + row.text else "")
  }

  /** The row's text is what its line shows from the row's first column on, up to white space at the end. */
  ghost predicate Shown(row: CopyRow) {
    exists n: nat :: ShownTo(row, n)
  }

  ghost predicate ShownTo(row: CopyRow, n: nat) {
    n <= |row.text| && Blank(row.text[n..]) && SliceByColumn(row.line, row.start, n) == row.text[..n]
  }

  /**
    The rows that hold text are numbered from line 0 on, in order, without missing a line; `next` is
    the line after the last.
   */
  predicate Numbered(rows: seq<CopyRow>, next: nat)
    decreases |rows|
  {
    if rows == [] then next == 0
    else
      var row := rows[|rows| - 1];
      var init := rows[..|rows| - 1];
      if row.skip then row.id == -1 && row.before == row.text == "" && Numbered(init, next)
      else next > 0 && row.id == next - 1 && (Numbered(init, next) || Numbered(init, next - 1))
  }

  ghost predicate Faithful(b: Block, rows: seq<CopyRow>) {
    && |rows| == |b.lines|
    && Numbered(rows, |b.logical|)
    && (forall k :: 0 <= k < |b.logical| ==> Joined(rows, k) == b.logical[k])
    && (forall r :: 0 <= r < |rows| ==> rows[r].line == b.lines[r] && rows[r].owner == b.owner)
    && (forall r :: 0 <= r < |rows| ==> Blank(rows[r].before) && (!rows[r].skip ==> Shown(rows[r])))
    && (forall r :: 0 <= r < |rows| ==> (rows[r].skip <==> r < b.paddingY || Last(b) <= r))
  }

  lemma {:induction false} JoinedBeyond(rows: seq<CopyRow>, next: nat, id: nat)
    requires Numbered(rows, next) && next <= id
    ensures Joined(rows, id) == ""
  {
    if rows != [] {
      var init := rows[..|rows| - 1];
      JoinedBeyond(init, if Numbered(init, next) then next else next - 1, id);
    }
  }

  lemma Snoc(rows: seq<CopyRow>, row: CopyRow, id: int)
    ensures Joined(rows + [row], id) == Joined(rows, id) + (if row.id == id then row.before + row.text else "")
  {
    assert (rows + [row])[..|rows|] == rows;
  }

  /** The lines begun so far: the current one counts once part of it is used. */
  function Begun(p: Progress): nat {
    if p.offset == 0 then p.id else p.id + 1
  }

  /** The rows mapped so far spell the lines before the current one, and the used part of that one. */
  ghost predicate Tracks(b: Block, p: Progress, row: nat)
    requires row <= |b.lines| && Within(b, p)
  {
    && Numbered(p.rows[..row], Begun(p))
    && (forall k :: 0 <= k < p.id ==> Joined(p.rows[..row], k) == b.logical[k])
    && (p.offset != 0 ==> Joined(p.rows[..row], p.id) == b.logical[p.id][..p.offset])
    && (forall r :: 0 <= r < |b.lines| ==> p.rows[r].line == b.lines[r] && p.rows[r].owner == b.owner)
    && (forall r :: 0 <= r < |b.lines| && !p.rows[r].skip ==> Shown(p.rows[r]) && Blank(p.rows[r].before))
    && (forall r :: 0 <= r < |b.lines| ==> (p.rows[r].skip <==> r < b.paddingY || row <= r))
    && (forall r :: 0 <= r < |b.lines| && p.rows[r].skip ==> p.rows[r] == Unmapped(b.lines[r], b.owner))
  }

  lemma {:induction false} SkippedNumbered(rows: seq<CopyRow>, extra: seq<CopyRow>, next: nat)
    requires Numbered(rows, next)
    requires forall r :: 0 <= r < |extra| ==>
      extra[r].skip && extra[r].id == -1 && extra[r].before == extra[r].text == ""
    ensures Numbered(rows + extra, next)
    ensures forall k: nat :: Joined(rows + extra, k) == Joined(rows, k)
  {
    if extra == [] {
      assert rows + extra == rows;
    } else {
      var init := extra[..|extra| - 1];
      SkippedNumbered(rows, init, next);
      assert (rows + extra)[..|rows + extra| - 1] == rows + init;
    }
  }

  lemma StartNumbered(b: Block, row: nat)
    requires row <= |b.lines|
    ensures Numbered(Start(b).rows[..row], 0)
  {
    var rows := Start(b).rows[..row];
    hide Start;
    SkippedNumbered([], rows, 0);
    assert [] + rows == rows;
  }

  lemma StartTracks(b: Block, row: nat)
    requires row <= b.paddingY && row <= |b.lines|
    ensures Tracks(b, Start(b), row)
  {
    hide Shown, Blank, Numbered, Joined;
    StartNumbered(b, row);
    BlankEmpty();
  }

  /** The last columns of a row's body, read off the row itself. */
  lemma SliceOfBody(line: string, paddingX: nat, n: nat)
    requires n <= |Body(line, paddingX)|
    ensures SliceByColumn(line, paddingX + |Body(line, paddingX)| - n, n) ==
      Body(line, paddingX)[|Body(line, paddingX)| - n..]
  {
    hide Blank, IsSpace;
    var length := if |line| < paddingX * 2 then 0 else |line| - paddingX * 2;
    var cut := SliceByColumn(line, paddingX, length);
    var body := Body(line, paddingX);
    assert body == cut[..|body|];
    if n > 0 {
      assert body == line[paddingX..paddingX + |body|];
    }
  }

  lemma CandidateSuffix(body: string, offset: nat, text: string)
    requires text in Candidates(body, offset)
    ensures |text| <= |body| && text == body[|body| - |text|..]
  {
    hide Candidates;
  }

  lemma MappedRowText(line: string, owner: int, id: nat, source: string, offset: nat, found: Found, paddingX: nat)
    requires offset <= found.at && found.at + |found.text| <= |source| && |found.text| <= |Body(line, paddingX)|
    requires OccursAt(source, found.text, found.at)
    ensures var row := MappedRow(line, owner, id, source, offset, found, paddingX);
      var n := |found.text|;
      && n <= |row.text| && row.text[..n] == found.text && Blank(row.text[n..])
      && row.line == line && row.start == paddingX + |Body(line, paddingX)| - n
  {
    hide Body, IsSpace;
    BlankEmpty();
    var row := MappedRow(line, owner, id, source, offset, found, paddingX);
    var n := |found.text|;
    var end := found.at + n;
    assert row.text[n..] == if Blank(source[end..]) then source[end..] else "";
    hide Blank;
  }

  /** A row taken at a fit shows its text. */
  lemma MappedRowShown(b: Block, line: string, id: nat, source: string, offset: nat, found: Found)
    requires offset <= |source| && FirstFit(source, offset, Candidates(Body(line, b.paddingX), offset)) == Some(found)
    ensures |found.text| <= |Body(line, b.paddingX)| && (found.text == "" ==> Blank(source))
    ensures Shown(MappedRow(line, b.owner, id, source, offset, found, b.paddingX))
  {
    hide Candidates, Body, FirstFit, Blank, SliceByColumn, OccursAt, MappedRow;
    CandidateSuffix(Body(line, b.paddingX), offset, found.text);
    SliceOfBody(line, b.paddingX, |found.text|);
    FoundWithin(source, found);
    MappedRowText(line, b.owner, id, source, offset, found, b.paddingX);
    assert ShownTo(MappedRow(line, b.owner, id, source, offset, found, b.paddingX), |found.text|);
  }

  lemma FoundWithin(source: string, found: Found)
    requires OccursAt(source, found.text, found.at)
    ensures found.at + |found.text| <= |source|
  {
  }

  lemma MappedRowHolds(line: string, owner: int, id: nat, source: string, offset: nat, found: Found, paddingX: nat)
    requires offset <= found.at && found.at + |found.text| <= |source| && |found.text| <= |Body(line, paddingX)|
    ensures var row := MappedRow(line, owner, id, source, offset, found, paddingX);
      var end := found.at + |found.text|;
      && source[..offset] + (row.before + row.text) == source[..if Blank(source[end..]) then |source| else end]
      && row.id == id && row.line == line && row.owner == owner && !row.skip && row.before == source[offset..found.at]
  {
    hide Body, Blank;
  }

  lemma StepTracks(b: Block, p: Progress, row: nat)
    requires row < |b.lines| && b.paddingY <= row && Within(b, p) && Tracks(b, p, row) && Step(b, p, row).Some?
    ensures Tracks(b, Step(b, p, row).value, row + 1)
  {
    hide Candidates, Body, FirstFit, Blank, SliceByColumn, Shown, MappedRow, Joined;
    var q := Step(b, p, row).value;
    var source := b.logical[p.id];
    var found := FirstFit(source, p.offset, Candidates(Body(b.lines[row], b.paddingX), p.offset)).value;
    MappedRowShown(b, b.lines[row], p.id, source, p.offset, found);
    var m := MappedRow(b.lines[row], b.owner, p.id, source, p.offset, found, b.paddingX);
    MappedRowHolds(b.lines[row], b.owner, p.id, source, p.offset, found, b.paddingX);
    var end := found.at + |found.text|;
    assert end == 0 ==> source[end..] == source;
    assert q.rows[..row + 1] == p.rows[..row] + [m];
    assert (p.rows[..row] + [m])[..row] == p.rows[..row];
    if p.offset == 0 {
      JoinedBeyond(p.rows[..row], p.id, p.id);
    }
    forall k | 0 <= k <= p.id
      ensures Joined(q.rows[..row + 1], k) == Joined(p.rows[..row], k) + (if k == p.id then m.before + m.text else "")
    {
      Snoc(p.rows[..row], m, k);
    }
  }

  lemma {:induction false} MapTracks(b: Block, row: nat)
    requires row <= |b.lines| && MapTo(b, row).Some?
    ensures Tracks(b, MapTo(b, row).value, row)
  {
    hide Tracks, Step;
    if row <= b.paddingY {
      StartTracks(b, row);
    } else {
      MapTracks(b, row - 1);
      StepTracks(b, MapTo(b, row - 1).value, row - 1);
    }
  }

  /** Whenever the rows are mapped, each line is what its rows hold, and every line has its rows, in order. */
  lemma MappedFaithful(b: Block)
    requires Mapped(b).Some?
    ensures Faithful(b, Mapped(b).value)
  {
    hide MapTo;
    var p := MapTo(b, Last(b)).value;
    MapTracks(b, Last(b));
    var head, tail := p.rows[..Last(b)], p.rows[Last(b)..];
    SkippedNumbered(head, tail, |b.logical|);
    assert p.rows == head + tail;
  }
}
