/** What the splitter refuses: redirections into files, substitutions and subshells. */
module InspectRefusals {
  import opened Prelude
  import opened Inspect

  predicate OperatorChar(c: char) {
    c in {'<', '>', '&', '|'}
  }

  /** A redirection operator as the scanner finds it. */
  predicate IsOperator(op: string) {
    && 1 <= |op| <= 3 && (forall i :: 0 <= i < |op| ==> OperatorChar(op[i]))
    && (op[0] == '<' || op[0] == '>' || (op[0] == '&' && |op| > 1 && op[1] == '>'))
  }

  lemma {:induction false} OperatorRead(more: string, done: string, rest: string)
    requires |done| + |more| <= 3 && (forall i :: 0 <= i < |more| ==> OperatorChar(more[i]))
    requires rest != "" && !OperatorChar(rest[0])
    ensures ReadOperator(more + rest, done) == (done + more, rest)
  {
    if more == "" {
      assert more + rest == rest && done + more == done;
    } else {
      assert (more + rest)[1..] == more[1..] + rest;
      OperatorRead(more[1..], done + [more[0]], rest);
      assert done + [more[0]] + more[1..] == done + more;
    }
  }

  /** What can follow a word: nothing, or a character that ends it. */
  predicate Follows(tail: string) {
    tail == "" || EndsWord(tail[0])
  }

  lemma QuotedPieceRead(t: string, tail: string)
    requires NoQuote(t)
    ensures ReadPiece("'" + t + "'" + tail) == Text(t, tail) && !EndsWord('\'')
  {
    SingleUnquotes(t, tail);
    assert ("'" + t + "'" + tail)[1..] == t + "'" + tail;
  }

  lemma NoWordRead(tail: string)
    requires Follows(tail)
    ensures ReadWord(tail) == Text("", tail)
  {
  }

  lemma QuotedWordRead(t: string, tail: string)
    requires NoQuote(t) && Follows(tail)
    ensures ReadWord("'" + t + "'" + tail) == Text(t, tail)
  {
    hide ReadPiece, ReadWord, EndsWord, NoQuote, Follows;
    QuotedPieceRead(t, tail);
    NoWordRead(tail);
    PieceThenWord("'" + t + "'" + tail, t, tail);
    assert t + "" == t;
  }

  /** After some words and a blank, the scanner has those words and reads on. */
  lemma AfterWords(ws: Words, tail: string)
    requires Quotable(ws)
    ensures SplitCommand(PrintWords(ws) + " " + tail) == Split(tail, State("", false, ws))
  {
    hide Split, PrintWords;
    assert PrintWords(ws) + " " + tail == PrintWords(ws) + (" " + tail);
    WordsUnquote(ws, " " + tail, []);
    BlankEnds(tail, ws[|ws| - 1], [] + ws[..|ws| - 1]);
    assert [] + ws[..|ws| - 1] + [ws[|ws| - 1]] == ws;
  }

  lemma RedirectionRead(op: string, t: string, tail: string)
    requires IsOperator(op) && NoQuote(t) && Follows(tail)
    ensures ReadRedirection(op + ("'" + t + "'" + tail)) == if Harmless(op, t) then Some(tail) else None
  {
    hide ReadOperator, ReadWord, Harmless;
    var word := "'" + t + "'" + tail;
    assert (op + word)[1..] == op[1..] + word && (op + word)[0] == op[0];
    OperatorRead(op[1..], [op[0]], word);
    assert [op[0]] + op[1..] == op;
    assert SkipBlanks(word) == word;
    QuotedWordRead(t, tail);
  }

  lemma RedirectionScanned(op: string, t: string, tail: string, ws: Words)
    requires IsOperator(op) && NoQuote(t) && Follows(tail)
    ensures Scan(op + ("'" + t + "'" + tail), State("", false, ws)) ==
      if Harmless(op, t) then Go([], tail, State("", false, ws)) else Stop
  {
    hide ReadRedirection, Harmless;
    RedirectionRead(op, t, tail);
    var s := op + ("'" + t + "'" + tail);
    assert s[0] == op[0] && (|op| > 1 ==> s[1] == op[1]) && (|op| == 1 ==> s[1] == '\'');
  }

  /**
    A redirection after some words is passed over exactly when it reads, copies a descriptor or writes
    into a sink, and its target is no argument of the program; otherwise the whole command is refused,
    whatever follows.
   */
  lemma RedirectionAccepted(ws: Words, op: string, t: string, tail: string)
    requires Quotable(ws) && IsOperator(op) && NoQuote(t) && Follows(tail)
    ensures SplitCommand(PrintWords(ws) + " " + (op + ("'" + t + "'" + tail))) ==
      if Harmless(op, t) then Split(tail, State("", false, ws)) else None
    ensures tail == "" && Harmless(op, t) ==> Split(tail, State("", false, ws)) == Some([ws])
    ensures op in {">", ">>", ">|", "&>", "&>>"} && t !in SINKS ==> !Harmless(op, t)
    ensures op == "<>" ==> !Harmless(op, t)
  {
    hide Scan, SplitCommand;
    var s := op + ("'" + t + "'" + tail);
    AfterWords(ws, s);
    RedirectionScanned(op, t, tail, ws);
    if Harmless(op, t) {
      SplitStep(s, State("", false, ws), tail, State("", false, ws));
    }
  }

  /**
    Substitutions and subshells are refused, right behind a word or after a blank, whatever follows
    them, and on whichever line they stand.
   */
  lemma SubstitutionRefused(a: string, ws: Words, gap: string, start: string, rest: string)
    requires Quotable(ws) && gap in {"", " "} && start in {"$(", "`", "(", ")"}
    requires SplitCommand(a).Some? && !Dangles(a, START)
    ensures SplitCommand(PrintWords(ws) + gap + (start + rest)).None?
    ensures SplitCommand(a + "\n" + (PrintWords(ws) + gap + (start + rest))).None?
  {
    hide Scan, PrintWords, SplitCommand;
    var tail := start + rest;
    if gap == "" {
      var st := State(ws[|ws| - 1], true, [] + ws[..|ws| - 1]);
      assert PrintWords(ws) + gap + tail == PrintWords(ws) + tail;
      WordsUnquote(ws, tail, []);
      SubstitutionStops(st, start, rest);
      StopRefuses(tail, st);
      QuotedStart(PrintWords(ws) + gap + tail, tail, st);
    } else {
      AfterWords(ws, tail);
      SubstitutionStops(State("", false, ws), start, rest);
      StopRefuses(tail, State("", false, ws));
    }
    SplitLines(a, PrintWords(ws) + gap + tail);
  }

  lemma StopRefuses(s: string, st: State)
    requires s != "" && Scan(s, st) == Stop
    ensures Split(s, st).None?
  {
  }

  lemma QuotedStart(s: string, tail: string, st: State)
    requires Split(s, State("", false, [])) == Split(tail, st)
    ensures SplitCommand(s) == Split(tail, st)
  {
  }

  lemma SubstitutionStops(st: State, start: string, rest: string)
    requires start in {"$(", "`", "(", ")"}
    ensures Scan(start + rest, st) == Stop
  {
    var s := start + rest;
    assert s[0] == start[0] && (start == "$(" ==> s[1] == '(');
  }

  /** They are refused inside double quotes as well, but not inside single ones. */
  lemma QuotedSubstitution(w: string, start: string, rest: string)
    requires start in {"$(", "`"} && NoQuote(w) && NoQuote(start)
    ensures SplitCommand("\"" + (start + rest)).None?
    ensures SplitCommand("'" + (start + w) + "'") == Some([[start + w]])
  {
    var s := "\"" + (start + rest);
    assert s[1..] == start + rest && (start + rest)[0] == start[0] && (start == "$(" ==> (start + rest)[1] == '(');
    assert ReadDouble(start + rest) == Refused;
    assert Scan(s, START) == Stop;
    QuotingRoundTrip([[start + w]], []);
    assert PrintWords([start + w]) == "'" + (start + w) + "'";
    hide Scan;
  }

  // ---- anywhere in an accepted command ----

  /** Reading `s` from a state, the scanner comes to stand before `r`, in the state `at`. */
  ghost predicate StandsBefore(s: string, st: State, r: string, at: State)
    decreases |s|
  {
    (r == s && at == st) || (s != "" && Scan(s, st).Go? && StandsBefore(Scan(s, st).rest, Scan(s, st).state, r, at))
  }

  lemma {:induction false} AcceptedFrom(s: string, st: State, r: string, at: State)
    requires Split(s, st).Some? && StandsBefore(s, st, r, at)
    ensures Split(r, at).Some?
    decreases |s|
  {
    hide Scan;
    if r != s || at != st {
      AcceptedFrom(Scan(s, st).rest, Scan(s, st).state, r, at);
    }
  }

  /**
    Wherever the scanner stands in a command that it accepts, no substitution or subshell begins, and a
    redirection is harmless.
   */
  lemma AcceptedIsHarmless(command: string, r: string, at: State)
    requires SplitCommand(command).Some? && StandsBefore(command, START, r, at) && r != ""
    ensures r[0] !in {'`', '(', ')'} && !(r[0] == '$' && CharAt(r, 1, '('))
    ensures StartsRedirection(r) ==>
      var (op, rest) := ReadOperator(r[1..], [r[0]]);
      var word := ReadWord(SkipBlanks(rest));
      word.Text? && Harmless(op, word.text) && !CharAt(rest, 0, '(')
  {
    hide ReadWord, ReadOperator, Harmless, SkipBlanks, Scan, StandsBefore, StartsRedirection;
    AcceptedFrom(command, START, r, at);
    NothingBegins(r, at);
    if StartsRedirection(r) {
      PassedOver(r, at);
    }
  }

  lemma NothingBegins(r: string, at: State)
    requires r != "" && Scan(r, at).Go?
    ensures r[0] !in {'`', '(', ')'} && !(r[0] == '$' && CharAt(r, 1, '('))
  {
    hide ReadRedirection, SkipComment, IsSuffix, DropDescriptor, EndWord, ReadSingle, ReadDouble;
  }

  lemma PassedOver(r: string, at: State)
    requires r != "" && StartsRedirection(r) && Scan(r, at).Go?
    ensures var (op, rest) := ReadOperator(r[1..], [r[0]]);
      var word := ReadWord(SkipBlanks(rest));
      word.Text? && Harmless(op, word.text) && !CharAt(rest, 0, '(')
  {
    hide ReadWord, ReadOperator, Harmless, SkipBlanks, ReadPiece, IsSuffix, DropDescriptor, EndWord;
    assert ReadRedirection(r).Some?;
  }

  // ---- anywhere in its words ----

  /** No substitution begins here. */
  predicate NoSubstitution(r: string) {
    r != "" ==> r[0] != '`' && !(r[0] == '$' && CharAt(r, 1, '('))
  }

  /** Reading double-quoted text from `s`, the scanner comes to read `r`; what a backslash escapes is passed over. */
  ghost predicate InDouble(s: string, r: string)
    decreases |s|
  {
    s != "" && s[0] != '"' &&
    (r == s || (var n := if s[0] == '\\' && |s| > 1 then 2 else 1; InDouble(s[n..], r)))
  }

  /** `r` stands inside a double-quoted string with which `s` begins. */
  ghost predicate InPiece(s: string, r: string) {
    s != "" && s[0] == '"' && InDouble(s[1..], r)
  }

  /** Reading a word from `s`, the scanner comes to read `r`, plainly or between double quotes. */
  ghost predicate InWord(s: string, r: string)
    decreases |s|
  {
    s != "" && !EndsWord(s[0]) &&
    (r == s || InPiece(s, r) || (ReadPiece(s).Text? && InWord(ReadPiece(s).rest, r)))
  }

  /** The scanner comes to read `r` as plain or double-quoted text, of a word or of the target of a redirection. */
  ghost predicate ReadAsText(command: string, r: string) {
    exists q, at :: StandsBefore(command, START, q, at) && TextFrom(q, r)
  }

  ghost predicate TextFrom(q: string, r: string) {
    q != "" &&
    (r == q || InPiece(q, r) || (StartsRedirection(q) && InWord(SkipBlanks(ReadOperator(q[1..], [q[0]]).1), r)))
  }

  lemma {:induction false} DoubleRefuses(s: string, r: string)
    requires ReadDouble(s).Text? && InDouble(s, r)
    ensures NoSubstitution(r)
    decreases |s|
  {
    if r != s {
      var n := DoubleStep(s, "");
      assert s[n + 1..] + "" == s[n + 1..];
      hide ReadDouble;
      DoubleRefuses(if s[0] == '\\' && |s| > 1 then s[2..] else s[1..], r);
    }
  }

  lemma PieceRefuses(s: string, r: string)
    requires s != "" && ReadPiece(s).Text?
    ensures NoSubstitution(s) && (InPiece(s, r) ==> NoSubstitution(r))
  {
    if InPiece(s, r) {
      DoubleRefuses(s[1..], r);
    }
    hide InDouble, ReadDouble, ReadSingle;
  }

  lemma {:induction false} WordRefuses(s: string, r: string)
    requires ReadWord(s).Text? && InWord(s, r)
    ensures NoSubstitution(r)
    decreases |s|
  {
    hide ReadPiece, InPiece, NoSubstitution, EndsWord;
    PieceRefuses(s, r);
    if InWord(ReadPiece(s).rest, r) {
      WordRefuses(ReadPiece(s).rest, r);
    }
  }

  lemma QuoteScanned(q: string, at: State)
    requires q != "" && q[0] == '"' && Scan(q, at).Go?
    ensures ReadPiece(q).Text?
  {
    hide ReadPiece, ReadRedirection, SkipComment, IsSuffix;
  }

  /**
    In a command that is accepted, no substitution begins anywhere in text that is read plainly or
    between double quotes.
   */
  lemma AcceptedSubstitutesNothing(command: string, r: string)
    requires SplitCommand(command).Some? && ReadAsText(command, r)
    ensures NoSubstitution(r)
  {
    hide Scan, StandsBefore, ReadPiece, InPiece, InWord, ReadWord, ReadOperator, SkipBlanks, Harmless,
      StartsRedirection;
    var q, at :| StandsBefore(command, START, q, at) && TextFrom(q, r);
    AcceptedFrom(command, START, q, at);
    NothingBegins(q, at);
    if InPiece(q, r) {
      PieceStart(q, r);
      QuoteScanned(q, at);
      PieceRefuses(q, r);
    } else if r != q {
      PassedOver(q, at);
      WordRefuses(SkipBlanks(ReadOperator(q[1..], [q[0]]).1), r);
    }
  }

  lemma PieceStart(q: string, r: string)
    requires InPiece(q, r)
    ensures q != "" && q[0] == '"'
  {
  }
}
