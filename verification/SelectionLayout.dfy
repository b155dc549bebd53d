/** Rows laid out by wrapping at white space, with hanging indents or quote bars, are always mapped. */
module SelectionLayout {
  import opened Prelude
  import opened Selection

  /** One row of a wrapped line: the white space it skips, the indent drawn for it, and the text it shows. */
  datatype Piece = Piece(gap: string, hang: string, fragment: string)

  function End(p: Piece, offset: nat): nat {
    offset + |p.gap| + |p.fragment|
  }

  /** The piece is what comes next in the line, and its text neither starts nor ends with white space. */
  ghost predicate Continues(source: string, offset: nat, p: Piece) {
    && End(p, offset) <= |source| && source[offset..End(p, offset)] == p.gap + p.fragment && Blank(p.gap)
    && p.fragment != "" && !IsSpace(p.fragment[0]) && !IsSpace(p.fragment[|p.fragment| - 1])
  }

  /**
    A line's first row may show the line's own indent or drop part of it. Later rows may start with
    any white space, or with bars when their text does not itself start with one.
   */
  ghost predicate Hangs(p: Piece, offset: nat)
    requires p.fragment != ""
  {
    if offset == 0 then |p.hang| <= |p.gap| && p.hang == p.gap[|p.gap| - |p.hang|..]
    else Blank(p.hang) || ((forall i :: 0 <= i < |p.hang| ==> IsHang(p.hang[i])) && p.fragment[0] != BAR)
  }

  /** The pieces are the rows of the line from `offset` on; a blank line has one row that shows nothing. */
  ghost predicate Wraps(source: string, offset: nat, pieces: seq<Piece>)
    decreases |pieces|
  {
    pieces != [] &&
    var p := pieces[0];
    if p == Piece("", "", "") then offset == 0 && Blank(source) && |pieces| == 1
    else
      && Continues(source, offset, p) && Hangs(p, offset)
      && (if |pieces| == 1 then Blank(source[End(p, offset)..]) else Wraps(source, End(p, offset), pieces[1..]))
  }

  // ---- the first fit is the right one ----

  lemma OccursChar(s: string, t: string, at: nat, k: nat)
    requires OccursAt(s, t, at) && k < |t|
    ensures s[at + k] == t[k]
  {
    assert s[at..at + |t|][k] == s[at + k];
  }

  lemma GapAt(source: string, offset: nat, p: Piece, k: nat)
    requires Continues(source, offset, p) && offset <= k < offset + |p.gap|
    ensures IsSpace(source[k])
  {
    assert source[offset..End(p, offset)][k - offset] == source[k];
  }

  lemma FragmentAt(source: string, offset: nat, p: Piece)
    requires Continues(source, offset, p)
    ensures source[offset + |p.gap|] == p.fragment[0]
  {
    assert source[offset..End(p, offset)][|p.gap|] == source[offset + |p.gap|];
  }

  /**
    White space before a fragment ends where the fragment starts, so a fit that skips only white space
    is the next piece.
   */
  lemma FitIsNext(source: string, offset: nat, p: Piece, lead: string, at: nat)
    requires Continues(source, offset, p) && Blank(lead)
    requires offset <= at && OccursAt(source, lead + p.fragment, at) && Blank(source[offset..at])
    ensures at + |lead| + |p.fragment| == End(p, offset)
  {
    var next := offset + |p.gap|;
    var first := at + |lead|;
    FragmentAt(source, offset, p);
    OccursChar(source, lead + p.fragment, at, |lead|);
    if next < at {
      BlankAt(source, offset, at, next);
    } else if next < first {
      OccursChar(source, lead + p.fragment, at, next - at);
    } else if first < next {
      GapAt(source, offset, p, first);
    }
  }

  /** A suffix of the white space that is skipped, followed by the fragment, fits. */
  lemma NextFits(source: string, offset: nat, p: Piece, lead: string)
    requires offset <= |source| && Continues(source, offset, p)
    requires |lead| <= |p.gap| && lead == p.gap[|p.gap| - |lead|..]
    ensures Fit(source, offset, lead + p.fragment).Some?
  {
    var at := offset + |p.gap| - |lead|;
    var all := source[offset..End(p, offset)];
    assert source[at..at + |lead| + |p.fragment|] == all[|p.gap| - |lead|..] == lead + p.fragment;
    assert OccursAt(source, lead + p.fragment, at);
    var found := IndexOf(source, lead + p.fragment, offset).value;
    assert found <= at;
    forall i | 0 <= i < found - offset
      ensures IsSpace(source[offset..found][i])
    {
      assert source[offset..found][i] == all[i] == p.gap[i];
    }
  }

  /** A row that starts with a bar never fits a line whose next text does not. */
  lemma BarNeverFits(source: string, offset: nat, p: Piece, body: string, k: nat)
    requires offset <= |source| && Continues(source, offset, p) && p.fragment[0] != BAR
    requires k < |body| && body[k] == BAR && Blank(body[..k])
    ensures Fit(source, offset, body).None?
  {
    var fit := Fit(source, offset, body);
    if fit.Some? {
      var at := fit.value.at;
      var next := offset + |p.gap|;
      FragmentAt(source, offset, p);
      OccursChar(source, body, at, k);
      if next < at {
        BlankAt(source, offset, at, next);
      } else if next < at + k {
        OccursChar(source, body, at, next - at);
        BlankPrefixAt(body, k, next - at);
      } else if at + k < next {
        GapAt(source, offset, p, at + k);
      }
    }
  }

  lemma {:induction false} TrimStartOf(lead: string, text: string)
    requires Blank(lead) && text != "" && !IsSpace(text[0])
    ensures TrimStart(lead + text) == text
  {
    if lead == "" {
      assert lead + text == text;
    } else {
      assert (lead + text)[1..] == lead[1..] + text;
      TrimStartOf(lead[1..], text);
    }
  }

  lemma {:induction false} HangEndOf(hang: string, text: string)
    requires (forall i :: 0 <= i < |hang| ==> IsHang(hang[i])) && text != "" && !IsHang(text[0])
    ensures HangEnd(hang + text) == |hang|
  {
    if hang == "" {
      assert hang + text == text;
    } else {
      assert (hang + text)[1..] == hang[1..] + text;
      HangEndOf(hang[1..], text);
    }
  }

  lemma FragmentStarts(source: string, offset: nat, p: Piece)
    requires Continues(source, offset, p)
    ensures p.fragment != "" && !IsSpace(p.fragment[0])
  {
  }

  lemma FirstOfThree(source: string, offset: nat, a: string, b: string, c: string)
    requires offset <= |source|
    ensures FirstFit(source, offset, [a, b, c]) ==
      if Fit(source, offset, a).Some? then Fit(source, offset, a)
      else if Fit(source, offset, b).Some? then Fit(source, offset, b)
      else Fit(source, offset, c)
  {
    hide Fit;
    assert [a, b, c][1..] == [b, c] && [b, c][1..] == [c] && [c][1..] == [];
    assert FirstFit(source, offset, [c]) == Fit(source, offset, c) by {
      assert FirstFit(source, offset, []) == None;
    }
    assert FirstFit(source, offset, [b, c]) ==
      if Fit(source, offset, b).Some? then Fit(source, offset, b) else Fit(source, offset, c);
  }

  lemma IndentedPieceFits(source: string, offset: nat, p: Piece)
    requires 0 < offset <= |source| && Continues(source, offset, p) && Blank(p.hang)
    ensures var fit := FirstFit(source, offset, Candidates(p.hang + p.fragment, offset));
      fit.Some? && fit.value.at + |fit.value.text| == End(p, offset)
  {
    hide Continues, Fit, OccursAt, Blank, IsSpace;
    BlankEmpty();
    FragmentStarts(source, offset, p);
    var body := p.hang + p.fragment;
    TrimStartOf(p.hang, p.fragment);
    FirstOfThree(source, offset, body, p.fragment, DropBars(body));
    if Fit(source, offset, body).Some? {
      FitIsNext(source, offset, p, p.hang, Fit(source, offset, body).value.at);
    } else {
      NextFits(source, offset, p, "");
      assert "" + p.fragment == p.fragment;
      FitIsNext(source, offset, p, "", Fit(source, offset, p.fragment).value.at);
    }
  }

  /** Trimming a quoted row leaves its first bar in front; dropping the bars leaves its text. */
  lemma QuotedBody(hang: string, text: string) returns (k: nat)
    requires (forall i :: 0 <= i < |hang| ==> IsHang(hang[i])) && !Blank(hang)
    requires text != "" && !IsHang(text[0])
    ensures k < |hang + text| && (hang + text)[k] == BAR && Blank((hang + text)[..k])
    ensures TrimStart(hang + text) == (hang + text)[k..] && DropBars(hang + text) == text
  {
    HangEndOf(hang, text);
    var body := hang + text;
    k := |body| - |TrimStart(body)|;
    var i :| 0 <= i < |hang| && !IsSpace(hang[i]);
    if i < k {
      BlankPrefixAt(body, k, i);
    }
    hide IsSpace, HangEnd, TrimStart;
    assert body[k] == hang[k] == BAR;
    assert body[..|hang|] == hang;
    assert body[|hang|..] == text;
  }

  lemma QuotedPieceFits(source: string, offset: nat, p: Piece)
    requires 0 < offset <= |source| && Continues(source, offset, p) && Hangs(p, offset) && !Blank(p.hang)
    ensures var fit := FirstFit(source, offset, Candidates(p.hang + p.fragment, offset));
      fit.Some? && fit.value.at + |fit.value.text| == End(p, offset)
  {
    hide Continues, Fit, OccursAt, IsSpace, FirstFit, Blank, TrimStart, DropBars, End;
    FragmentStarts(source, offset, p);
    BlankEmpty();
    var k := QuotedBody(p.hang, p.fragment);
    var body := p.hang + p.fragment;
    BarNeverFits(source, offset, p, body, k);
    assert body[k..][..0] == "";
    BarNeverFits(source, offset, p, body[k..], 0);
    FirstOfThree(source, offset, body, body[k..], p.fragment);
    NextFits(source, offset, p, "");
    assert "" + p.fragment == p.fragment;
    FitIsNext(source, offset, p, "", Fit(source, offset, p.fragment).value.at);
  }

  lemma FirstPieceFits(source: string, p: Piece)
    requires Continues(source, 0, p) && Hangs(p, 0)
    ensures var fit := FirstFit(source, 0, Candidates(p.hang + p.fragment, 0));
      fit.Some? && fit.value.at + |fit.value.text| == End(p, 0)
  {
    hide Fit, OccursAt;
    NextFits(source, 0, p, p.hang);
    forall i | 0 <= i < |p.hang|
      ensures IsSpace(p.hang[i])
    {
      assert p.hang[i] == p.gap[|p.gap| - |p.hang| + i];
    }
    FitIsNext(source, 0, p, p.hang, Fit(source, 0, p.hang + p.fragment).value.at);
  }

  lemma BlankPieceFits(source: string)
    requires Blank(source)
    ensures FirstFit(source, 0, Candidates("", 0)) == Some(Found("", 0))
  {
    assert OccursAt(source, "", 0);
  }

  /** The row of the next piece is matched up to exactly where that piece ends. */
  lemma PieceFits(source: string, offset: nat, pieces: seq<Piece>)
    requires offset <= |source| && Wraps(source, offset, pieces)
    ensures var p := pieces[0];
      var fit := FirstFit(source, offset, Candidates(p.hang + p.fragment, offset));
      fit.Some? && fit.value.at + |fit.value.text| == End(p, offset)
  {
    hide Continues, Hangs, FirstFit, Candidates, Blank;
    var p := pieces[0];
    if p == Piece("", "", "") {
      BlankPieceFits(source);
      assert p.hang + p.fragment == "";
    } else if offset == 0 {
      FirstPieceFits(source, p);
    } else if Blank(p.hang) {
      IndentedPieceFits(source, offset, p);
    } else {
      QuotedPieceFits(source, offset, p);
    }
  }

  /** Only white space is left of a line exactly after its last piece. */
  lemma FinishedAtLast(source: string, offset: nat, pieces: seq<Piece>)
    requires offset <= |source| && Wraps(source, offset, pieces)
    ensures End(pieces[0], offset) <= |source| && (Blank(source[End(pieces[0], offset)..]) <==> |pieces| == 1)
    ensures |pieces| > 1 ==> 0 < End(pieces[0], offset) && Wraps(source, End(pieces[0], offset), pieces[1..])
  {
    var end := End(pieces[0], offset);
    if |pieces| > 1 {
      var q := pieces[1];
      assert q == pieces[1..][0];
      assert Continues(source, end, q);
      assert source[end..][|q.gap|] == source[end..End(q, end)][|q.gap|] == q.fragment[0];
    }
  }

  /** The rows between the paddings show the pieces of the lines, one after the other. */
  ghost predicate LaidOut(b: Block, pieces: seq<seq<Piece>>) {
    && |pieces| == |b.logical| && (forall k :: 0 <= k < |pieces| ==> Wraps(b.logical[k], 0, pieces[k]))
    && b.paddingY <= |b.lines| && |Flatten(pieces)| == Last(b) - b.paddingY
    && (forall n :: 0 <= n < |Flatten(pieces)| ==>
          Body(b.lines[b.paddingY + n], b.paddingX) == Flatten(pieces)[n].hang + Flatten(pieces)[n].fragment)
  }

  /** What is left to show: the rest of the line begun, and the lines after it. */
  ghost predicate Ahead(b: Block, pieces: seq<seq<Piece>>, p: Progress, rest: seq<Piece>, left: seq<Piece>)
    requires |pieces| == |b.logical| && Within(b, p)
  {
    && left == rest + Flatten(pieces[Begun(p)..])
    && (if p.offset == 0 then rest == [] else Wraps(b.logical[p.id], p.offset, rest))
  }

  lemma NothingAfter(pieces: seq<seq<Piece>>, id: nat)
    requires id <= |pieces|
    ensures id == |pieces| ==> Flatten(pieces[id..]) == []
    ensures id < |pieces| && pieces[id] != [] ==> Flatten(pieces[id..]) != []
  {
    if id < |pieces| {
      assert pieces[id..][0] == pieces[id];
    }
  }

  /** What is left starts with the pieces of the current line, which is not the end of the block. */
  lemma CurrentPieces(b: Block, pieces: seq<seq<Piece>>, p: Progress, rest: seq<Piece>, left: seq<Piece>)
      returns (current: seq<Piece>)
    requires |pieces| == |b.logical| && (forall k :: 0 <= k < |pieces| ==> Wraps(b.logical[k], 0, pieces[k]))
    requires Within(b, p) && Ahead(b, pieces, p, rest, left) && left != []
    ensures p.id < |b.logical| && current != [] && Wraps(b.logical[p.id], p.offset, current)
    ensures left == current + Flatten(pieces[p.id + 1..])
  {
    if p.offset == 0 {
      NothingAfter(pieces, p.id);
      current := pieces[p.id];
      assert pieces[p.id..][1..] == pieces[p.id + 1..];
    } else {
      current := rest;
    }
  }

  lemma StepAt(b: Block, p: Progress, row: nat, end: nat)
    requires Within(b, p) && p.id < |b.logical| && row < |b.lines| && p.offset <= |b.logical[p.id]|
    requires var fit := FirstFit(b.logical[p.id], p.offset, Candidates(Body(b.lines[row], b.paddingX), p.offset));
      fit.Some? && fit.value.at + |fit.value.text| == end
    ensures end <= |b.logical[p.id]| && Step(b, p, row).Some?
    ensures var q := Step(b, p, row).value;
      if Blank(b.logical[p.id][end..]) then q.id == p.id + 1 && q.offset == 0 else q.id == p.id && q.offset == end
  {
    hide Candidates, Body, FirstFit, Blank, MappedRow, Fit;
  }

  /** A row that shows the next piece is mapped, and the line goes on exactly if it has more pieces. */
  lemma StepOnPiece(b: Block, p: Progress, current: seq<Piece>, row: nat)
    requires Within(b, p) && p.id < |b.logical| && row < |b.lines|
    requires p.offset <= |b.logical[p.id]| && Wraps(b.logical[p.id], p.offset, current)
    requires Body(b.lines[row], b.paddingX) == current[0].hang + current[0].fragment
    ensures Step(b, p, row).Some?
    ensures var q := Step(b, p, row).value;
      if |current| == 1 then q.id == p.id + 1 && q.offset == 0
      else q.id == p.id && q.offset != 0 && Wraps(b.logical[p.id], q.offset, current[1..])
  {
    assert current != [];
    hide Wraps, Body, Candidates, FirstFit, MappedRow, Blank, Step, End, Within;
    PieceFits(b.logical[p.id], p.offset, current);
    FinishedAtLast(b.logical[p.id], p.offset, current);
    StepAt(b, p, row, End(current[0], p.offset));
  }

  lemma StepAhead(b: Block, pieces: seq<seq<Piece>>, p: Progress, rest: seq<Piece>, left: seq<Piece>, row: nat)
      returns (next: seq<Piece>)
    requires |pieces| == |b.logical| && (forall k :: 0 <= k < |pieces| ==> Wraps(b.logical[k], 0, pieces[k]))
    requires Within(b, p) && Ahead(b, pieces, p, rest, left) && left != [] && row < |b.lines|
    requires Body(b.lines[row], b.paddingX) == left[0].hang + left[0].fragment
    ensures Step(b, p, row).Some? && Ahead(b, pieces, Step(b, p, row).value, next, left[1..])
  {
    hide Wraps, Body, Step, Flatten;
    var current := CurrentPieces(b, pieces, p, rest, left);
    assert left[0] == current[0];
    StepOnPiece(b, p, current, row);
    next := current[1..];
    assert left[1..] == next + Flatten(pieces[p.id + 1..]);
  }

  lemma {:induction false} MapsPieces(b: Block, pieces: seq<seq<Piece>>, n: nat) returns (rest: seq<Piece>)
    requires LaidOut(b, pieces) && n <= |Flatten(pieces)|
    ensures MapTo(b, b.paddingY + n).Some?
    ensures Ahead(b, pieces, MapTo(b, b.paddingY + n).value, rest, Flatten(pieces)[n..])
  {
    hide Wraps, Body, Step;
    if n == 0 {
      rest := [];
      assert pieces[0..] == pieces;
    } else {
      var before := MapsPieces(b, pieces, n - 1);
      var left := Flatten(pieces)[n - 1..];
      rest := StepAhead(b, pieces, MapTo(b, b.paddingY + n - 1).value, before, left, b.paddingY + n - 1);
      assert left[1..] == Flatten(pieces)[n..];
    }
  }

  /** However the lines were wrapped, the rows are mapped. */
  lemma LaidOutIsMapped(b: Block, pieces: seq<seq<Piece>>)
    requires LaidOut(b, pieces)
    ensures Mapped(b).Some?
  {
    hide MapTo, Body;
    var rest := MapsPieces(b, pieces, |Flatten(pieces)|);
    var p := MapTo(b, Last(b)).value;
    assert rest == [] && Flatten(pieces[Begun(p)..]) == [];
    NothingAfter(pieces, Begun(p));
  }
}
