/** Mapping a block's rows as the renderer left them, and copying a selection that covers it. */
module SelectionCopy {
  import opened Prelude
  import opened Selection

  // ---- mapping ----

  method MapRows(owner: int, lines: seq<string>, logical: seq<string>, paddingX: nat, paddingY: nat)
      returns (mapped: Option<seq<CopyRow>>)
    ensures mapped == Mapped(Block(owner, lines, logical, paddingX, paddingY))
    ensures mapped.Some? ==> Faithful(Block(owner, lines, logical, paddingX, paddingY), mapped.value)
  {
    var b := Block(owner, lines, logical, paddingX, paddingY);
    hide Faithful, Step;
    var p := Start(b);
    var row := paddingY;
    while row < |lines| - paddingY
      invariant Within(b, p) && paddingY <= row && (row <= Last(b) || row == paddingY)
      invariant MapTo(b, if row <= |lines| then row else |lines|) == Some(p)
    {
      assert MapTo(b, row + 1) == Step(b, p, row) && Last(b) == |lines| - paddingY;
      var next := MapRow(b, p, row);
      if next.None? {
        UnmappedForGood(b, row + 1);
        return None;
      }
      p := next.value;
      row := row + 1;
    }
    if p.id != |logical| {
      return None;
    }
    MappedFaithful(b);
    return Some(p.rows);
  }

  /** One row: match it against the rest of the current line. */
  method MapRow(b: Block, p: Progress, row: nat) returns (next: Option<Progress>)
    requires Within(b, p) && row < |b.lines|
    ensures next == Step(b, p, row)
  {
    hide Fit, Body, Blank, Candidates, MappedRow;
    var rows, id, offset := p.rows, p.id, p.offset;
    if id == |b.logical| {
      return None;
    }
    var source := b.logical[id];
    var body := Body(b.lines[row], b.paddingX);
    var found := FindFit(source, offset, Candidates(body, offset));
    if found.None? {
      return None;
    }
    var end := found.value.at + |found.value.text|;
    rows := rows[row := MappedRow(b.lines[row], b.owner, id, source, offset, found.value, b.paddingX)];
    if Blank(source[end..]) {
      id, offset := id + 1, 0;
    } else {
      offset := end;
    }
    return Some(Progress(rows, id, offset));
  }

  method FindFit(source: string, offset: nat, candidates: seq<string>) returns (found: Option<Found>)
    requires offset <= |source|
    ensures found == FirstFit(source, offset, candidates)
  {
    found := None;
    for i := 0 to |candidates|
      invariant found == None && FirstFit(source, offset, candidates) == FirstFit(source, offset, candidates[i..])
    {
      var fit := Fit(source, offset, candidates[i]);
      assert candidates[i..][1..] == candidates[i + 1..];
      if fit.Some? {
        return fit;
      }
    }
  }

  /** Once a row cannot be mapped, the block cannot. */
  lemma {:induction false} UnmappedForGood(b: Block, row: nat)
    requires b.paddingY < row <= Last(b) && MapTo(b, row).None?
    ensures Mapped(b) == None
    decreases Last(b) - row
  {
    hide Step;
    if row < Last(b) {
      UnmappedForGood(b, row + 1);
    }
  }

  // ---- copying ----

  datatype Columns = Columns(start: nat, end: int)

  /** The copied lines so far, the row last copied, and whether any row was the block's own. */
  datatype Copying = Copying(result: seq<string>, previous: Option<CopyRow>, changed: bool)

  function Max(a: int, b: int): int {
    if a < b then b else a
  }

  function Min(a: int, b: int): int {
    if a < b then a else b
  }

  function CopyStep(c: Copying, line: string, source: Option<CopyRow>, columns: Columns): Copying {
    if source.Some? && TrimEnd(source.value.line) == TrimEnd(line) then
      var s := source.value;
      var start := Max(columns.start, s.start);
      var end := Min(columns.end, s.start + |s.text|);
      if s.skip then c.(changed := true)
      else if end <= start && s.text != "" then c.(changed := true, previous := None)
      else
        var text := SliceByColumn(s.text, start - s.start, Max(0, end - start));
        var n := |c.result|;
        var joins := c.previous.Some? && c.previous.value.owner == s.owner && c.previous.value.id == s.id && n > 0;
        Copying(if joins then c.result[n - 1 := c.result[n - 1] + (s.before + text)]
          else c.result + [text], source, true)
    else
      var text := SliceByColumn(line, columns.start, Max(0, columns.end - columns.start));
      Copying(c.result + [TrimEnd(text)], None, c.changed)
  }

  function LineAt(lines: seq<string>, row: nat): string {
    if row < |lines| then lines[row] else ""
  }

  function RowAt(rows: seq<Option<CopyRow>>, row: nat): Option<CopyRow> {
    if row < |rows| then rows[row] else None
  }

  /** The copy of the rows from `startRow` up to, not including, `row`. */
  function CopyTo(lines: seq<string>, rows: seq<Option<CopyRow>>, startRow: nat, row: nat,
                  columnsFor: (string, nat) -> Columns): Copying
    requires startRow <= row
  {
    if row == startRow then Copying([], None, false)
    else
      CopyStep(CopyTo(lines, rows, startRow, row - 1, columnsFor), LineAt(lines, row - 1), RowAt(rows, row - 1),
               columnsFor(LineAt(lines, row - 1), row - 1))
  }

  function Join(ss: seq<string>): string {
    if ss == [] then "" else if |ss| == 1 then ss[0] else ss[0] + "\n" + Join(ss[1..])
  }

  /** Lines are joined by one newline each, in order. */
  lemma {:induction false} JoinNext(ss: seq<string>, line: string)
    ensures Join(ss + [line]) == if ss == [] then line else Join(ss) + "\n" + line
  {
    if |ss| > 1 {
      JoinNext(ss[1..], line);
      assert (ss + [line])[1..] == ss[1..] + [line];
    } else if |ss| == 1 {
      assert (ss + [line])[1..] == [line];
    }
  }

  /** Nothing when no row was the block's own; otherwise the copied lines, or no text when they are empty. */
  function Copied(c: Copying): Option<Option<string>> {
    if !c.changed then None
    else Some(if Join(c.result) == "" then None else Some(Join(c.result)))
  }

  method CopyContentRows(lines: seq<string>, rows: seq<Option<CopyRow>>, startRow: nat, endRow: int,
                         columnsFor: (string, nat) -> Columns)
      returns (copied: Option<Option<string>>)
    ensures copied ==
      Copied(CopyTo(lines, rows, startRow, if endRow < startRow then startRow else endRow + 1, columnsFor))
  {
    hide CopyStep, Join;
    var copying := Copying([], None, false);
    var row := startRow;
    while row <= endRow
      invariant startRow <= row && (row <= endRow + 1 || row == startRow)
      invariant CopyTo(lines, rows, startRow, row, columnsFor) == copying
      decreases endRow - row
    {
      var line := LineAt(lines, row);
      copying := CopyRow(copying, line, RowAt(rows, row), columnsFor(line, row));
      row := row + 1;
    }
    var text := Join(copying.result);
    return if copying.changed then Some(if text == "" then None else Some(text)) else None;
  }

  /** One row: the part of it that is selected joins the line it continues, or starts a new one. */
  method CopyRow(copying: Copying, line: string, source: Option<CopyRow>, columns: Columns) returns (next: Copying)
    ensures next == CopyStep(copying, line, source, columns)
  {
    hide TrimEnd, SliceByColumn;
    var result, previous, changed := copying.result, copying.previous, copying.changed;
    if source.Some? && TrimEnd(source.value.line) == TrimEnd(line) {
      changed := true;
      var s := source.value;
      if s.skip {
        return Copying(result, previous, changed);
      }
      var start := Max(columns.start, s.start);
      var end := Min(columns.end, s.start + |s.text|);
      if end <= start && s.text != "" {
        return Copying(result, None, changed);
      }
      var text := SliceByColumn(s.text, start - s.start, Max(0, end - start));
      if previous.Some? && previous.value.owner == s.owner && previous.value.id == s.id && |result| > 0 {
        result := result[|result| - 1 := result[|result| - 1] + (s.before + text)];
      } else {
        result := result + [text];
      }
      previous := source;
    } else {
      result := result + [TrimEnd(SliceByColumn(line, columns.start, Max(0, columns.end - columns.start)))];
      previous := None;
    }
    return Copying(result, previous, changed);
  }

  /** The x-th character of a row stands in a selected column. */
  predicate Selected(row: CopyRow, columns: Columns, x: int) {
    0 <= x < |row.text| && columns.start <= row.start + x < columns.end
  }

  /**
    Of a row that is the block's own, exactly the selected columns that it has are copied: the piece
    that is added holds the row's character of every such column, in order, and no other. It goes on with
    the line copied last if it is of the same line of the same block, and else starts a new one.
   */
  lemma SelectedColumns(c: Copying, row: CopyRow, columns: Columns)
    requires !row.skip
    ensures var d := CopyStep(c, row.line, Some(row), columns);
      var start, end := Max(columns.start, row.start), Min(columns.end, row.start + |row.text|);
      if end <= start && row.text != "" then d.result == c.result && d.previous.None?
      else
        && |d.result| > 0 && d.previous == Some(row)
        && var piece := SliceByColumn(row.text, start - row.start, Max(0, end - start));
          && |piece| == Max(0, end - start)
          && (forall k :: 0 <= k < |piece| ==> piece[k] == row.text[start + k - row.start])
          && (forall x :: Selected(row, columns, x) <==> start <= row.start + x < end)
          && d.result ==
            if |c.result| > 0 && c.previous.Some? && c.previous.value.owner == row.owner
               && c.previous.value.id == row.id
            then c.result[..|c.result| - 1] + [c.result[|c.result| - 1] + (row.before + piece)]
            else c.result + [piece]
  {
    hide TrimEnd;
    var start, end := Max(columns.start, row.start), Min(columns.end, row.start + |row.text|);
    if start < end {
      assert SliceByColumn(row.text, start - row.start, end - start) == row.text[start - row.start..end - row.start];
    }
  }

  /** The block's row is still what the line shows, up to white space at the end. */
  predicate StillOwn(line: string, source: Option<CopyRow>) {
    source.Some? && TrimEnd(source.value.line) == TrimEnd(line)
  }

  /**
    Of a line that is not the block's own, or no longer, the characters in selected columns are copied as a line
    of their own, without white space at the end; it continues nothing, and nothing continues it.
   */
  lemma ForeignRow(c: Copying, line: string, source: Option<CopyRow>, columns: Columns) returns (piece: string)
    requires !StillOwn(line, source)
    ensures CopyStep(c, line, source, columns) == Copying(c.result + [TrimEnd(piece)], None, c.changed)
    ensures |piece| == Max(0, Min(columns.end, |line|) - columns.start)
    ensures forall k :: 0 <= k < |piece| ==> piece[k] == line[columns.start + k]
  {
    hide TrimEnd;
    piece := SliceByColumn(line, columns.start, Max(0, columns.end - columns.start));
  }

  lemma ChangedStep(c: Copying, line: string, source: Option<CopyRow>, columns: Columns)
    ensures CopyStep(c, line, source, columns).changed <==> c.changed || StillOwn(line, source)
  {
    hide TrimEnd, SliceByColumn;
  }

  /** There is something to copy exactly when some selected line is the block's own. */
  lemma {:induction false} CopiedWhenOwn(lines: seq<string>, rows: seq<Option<CopyRow>>, startRow: nat, row: nat,
                                         columnsFor: (string, nat) -> Columns)
    requires startRow <= row
    ensures Copied(CopyTo(lines, rows, startRow, row, columnsFor)).Some? <==>
      exists r :: startRow <= r < row && StillOwn(LineAt(lines, r), RowAt(rows, r))
    decreases row
  {
    hide CopyStep, StillOwn, Join;
    if row > startRow {
      CopiedWhenOwn(lines, rows, startRow, row - 1, columnsFor);
      ChangedStep(CopyTo(lines, rows, startRow, row - 1, columnsFor), LineAt(lines, row - 1), RowAt(rows, row - 1),
                  columnsFor(LineAt(lines, row - 1), row - 1));
    }
  }

  // ---- copying a whole block ----

  /** The white space of a line that its first row skips. */
  function Lead(rows: seq<CopyRow>, id: nat): string {
    if rows == [] then ""
    else
      var init := rows[..|rows| - 1];
      var row := rows[|rows| - 1];
      if Begins(init, id) || row.id != id then Lead(init, id) else row.before
  }

  /** Some row holds the line. */
  predicate Begins(rows: seq<CopyRow>, id: nat) {
    exists r :: 0 <= r < |rows| && rows[r].id == id
  }

  /** What the rows of a line hold, but for that white space. */
  function Told(rows: seq<CopyRow>, id: nat): string {
    if rows == [] then ""
    else
      var init := rows[..|rows| - 1];
      var row := rows[|rows| - 1];
      if row.id != id then Told(init, id)
      else if Begins(init, id) then Told(init, id) + (row.before + row.text)
      else row.text
  }

  function AllTold(rows: seq<CopyRow>, n: nat): seq<string> {
    seq(n, k requires 0 <= k < n => Told(rows, k))
  }

  lemma {:induction false} JoinedIsTold(rows: seq<CopyRow>, id: nat)
    ensures Joined(rows, id) == Lead(rows, id) + Told(rows, id)
    ensures !Begins(rows, id) ==> Lead(rows, id) == Told(rows, id) == ""
  {
    if rows != [] {
      var init := rows[..|rows| - 1];
      var row := rows[|rows| - 1];
      JoinedIsTold(init, id);
      assert Begins(init, id) ==> Begins(rows, id) by {
        if r :| 0 <= r < |init| && init[r].id == id {
          assert rows[r].id == id;
        }
      }
      if Begins(init, id) {
        assert Lead(init, id) + Told(init, id) + (row.before + row.text) ==
          Lead(init, id) + (Told(init, id) + (row.before + row.text));
      }
    }
  }

  lemma {:induction false} LeadBlank(rows: seq<CopyRow>, id: nat)
    requires forall r :: 0 <= r < |rows| ==> Blank(rows[r].before)
    ensures Blank(Lead(rows, id))
  {
    if rows != [] {
      LeadBlank(rows[..|rows| - 1], id);
    }
  }

  /** Exactly the lines before `next` have rows. */
  lemma {:induction false} NumberedBegins(rows: seq<CopyRow>, next: nat, id: nat)
    requires Numbered(rows, next)
    ensures Begins(rows, id) <==> id < next
  {
    if rows != [] {
      var init := rows[..|rows| - 1];
      var row := rows[|rows| - 1];
      NumberedBegins(init, if Numbered(init, next) then next else next - 1, id);
      assert Begins(rows, id) <==> Begins(init, id) || row.id == id;
    }
  }

  /** The selected columns hold each row's whole text. */
  ghost predicate Covers(lines: seq<string>, rows: seq<CopyRow>, columnsFor: (string, nat) -> Columns)
    requires |rows| == |lines|
  {
    forall r :: 0 <= r < |rows| ==>
      columnsFor(lines[r], r).start <= rows[r].start && rows[r].start + |rows[r].text| <= columnsFor(lines[r], r).end
  }

  function Own(rows: seq<CopyRow>): seq<Option<CopyRow>> {
    seq(|rows|, r requires 0 <= r < |rows| => Some(rows[r]))
  }

  /** A row copied whole goes on with its line, or starts the next. */
  lemma CopyStepWhole(c: Copying, row: CopyRow, columns: Columns)
    requires columns.start <= row.start && row.start + |row.text| <= columns.end && !row.skip
    ensures var d := CopyStep(c, row.line, Some(row), columns);
      d.previous == Some(row) && d.changed
      && d.result ==
        if c.previous.Some? && c.previous.value.owner == row.owner && c.previous.value.id == row.id &&
           |c.result| > 0 then
          c.result[|c.result| - 1 := c.result[|c.result| - 1] + (row.before + row.text)]
        else c.result + [row.text]
  {
    assert SliceByColumn(row.text, 0, |row.text|) == row.text;
  }

  ghost predicate CopiedUpTo(c: Copying, rows: seq<CopyRow>, next: nat, owner: int) {
    && c.result == AllTold(rows, next) && (rows != [] ==> c.changed)
    && (if next == 0 then c.previous.None?
      else c.previous.Some? && c.previous.value.owner == owner && c.previous.value.id == next - 1)
  }

  lemma CopiedStep(c: Copying, rows: seq<CopyRow>, before: nat, next: nat, row: CopyRow, columns: Columns)
    requires Numbered(rows, before) && CopiedUpTo(c, rows, before, row.owner)
    requires if row.skip then row.id == -1 && before == next
      else next > 0 && row.id == next - 1 && next - 1 <= before <= next
    requires columns.start <= row.start && row.start + |row.text| <= columns.end
    ensures CopiedUpTo(CopyStep(c, row.line, Some(row), columns), rows + [row], next, row.owner)
  {
    var all := rows + [row];
    assert all[..|all| - 1] == rows;
    forall k: nat | k < next
      ensures Told(all, k) ==
        if row.id != k then Told(rows, k) else if k < before then Told(rows, k) + (row.before + row.text) else row.text
    {
      NumberedBegins(rows, before, k);
    }
    var d := CopyStep(c, row.line, Some(row), columns);
    if !row.skip {
      CopyStepWhole(c, row, columns);
    }
    assert d.result == AllTold(all, next);
  }

  /** Copying the first n rows copies what they tell of each line they have reached. */
  lemma {:induction false} CopyRows(lines: seq<string>, rows: seq<CopyRow>, owner: int, columnsFor: (string,
                                    nat) -> Columns, n: nat, next: nat)
    requires |rows| == |lines| && n <= |rows| && Covers(lines, rows, columnsFor) && Numbered(rows[..n], next)
    requires forall r :: 0 <= r < |rows| ==> rows[r].line == lines[r] && rows[r].owner == owner
    ensures CopiedUpTo(CopyTo(lines, Own(rows), 0, n, columnsFor), rows[..n], next, owner)
    decreases n
  {
    hide CopyStep, CopiedUpTo;
    var c := CopyTo(lines, Own(rows), 0, n, columnsFor);
    if n == 0 {
      CopiedNone(rows[..0], owner);
    } else {
      var init := rows[..n - 1];
      assert rows[..n] == init + [rows[n - 1]] && rows[..n][..n - 1] == init;
      var before := if Numbered(init, next) then next else next - 1;
      CopyRows(lines, rows, owner, columnsFor, n - 1, before);
      CopiedStep(CopyTo(lines, Own(rows), 0, n - 1, columnsFor), init, before, next,
                 rows[n - 1], columnsFor(lines[n - 1], n - 1));
    }
  }

  lemma CopiedNone(rows: seq<CopyRow>, owner: int)
    requires rows == []
    ensures CopiedUpTo(Copying([], None, false), rows, 0, owner)
  {
  }

  /**
    Copying a whole mapped block gives back its lines, joined by newlines, but for the white space
    that the first row of a line skips.
   */
  lemma CopyWholeBlock(b: Block, columnsFor: (string, nat) -> Columns)
    requires Mapped(b).Some? && b.lines != [] && |Mapped(b).value| == |b.lines|
    requires Covers(b.lines, Mapped(b).value, columnsFor)
    ensures var rows := Mapped(b).value;
      var parts := AllTold(rows, |b.logical|);
      Copied(CopyTo(b.lines, Own(rows), 0, |b.lines|, columnsFor)) == Some(if Join(parts) == "" then None
        else Some(Join(parts)))
    ensures forall k :: 0 <= k < |b.logical| ==>
      Blank(Lead(Mapped(b).value, k)) && b.logical[k] == Lead(Mapped(b).value, k) + Told(Mapped(b).value, k)
  {
    hide Mapped, Covers, CopyTo, Join, Blank;
    var rows := Mapped(b).value;
    MappedFaithful(b);
    assert rows[..|rows|] == rows;
    CopyRows(b.lines, rows, b.owner, columnsFor, |rows|, |b.logical|);
    forall k | 0 <= k < |b.logical|
      ensures Blank(Lead(rows, k)) && b.logical[k] == Lead(rows, k) + Told(rows, k)
    {
      JoinedIsTold(rows, k);
      LeadBlank(rows, k);
    }
  }
}
