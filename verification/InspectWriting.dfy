/**
  How a command is written: words of plain, escaped and quoted characters, with blanks, separators, comments
  and redirections between them. Whatever is written so is read as exactly the words that were meant.
 */
module InspectWriting {
  import opened Prelude
  import opened Inspect
  import InspectRefusals

  // ---- words ----

  /** A character between double quotes: as it is, or behind a backslash. */
  datatype Quoted = Bare(c: char) | Behind(c: char)

  datatype Piece = Plain(c: char) | Escaped(c: char) | Single(text: string) | Double(parts: seq<Quoted>) | Continued

  function ShowOne(q: Quoted): string {
    if q.Bare? then [q.c] else ['\\', q.c]
  }

  function ShowQuoted(parts: seq<Quoted>): string {
    if parts == [] then "" else ShowOne(parts[0]) + ShowQuoted(parts[1..])
  }

  function Chars(parts: seq<Quoted>): string {
    if parts == [] then "" else [parts[0].c] + Chars(parts[1..])
  }

  function Show(p: Piece): string {
    match p
    case Plain(c) => [c]
    case Escaped(c) => ['\\', c]
    case Single(text) => "'" + text + "'"
    case Double(parts) => "\"" + ShowQuoted(parts) + "\""
    case Continued => "\\\n"
  }

  function ShowAll(ps: seq<Piece>): string {
    if ps == [] then "" else Show(ps[0]) + ShowAll(ps[1..])
  }

  function Says(p: Piece): string {
    match p
    case Plain(c) => [c]
    case Escaped(c) => [c]
    case Single(text) => text
    case Double(parts) => Chars(parts)
    case Continued => ""
  }

  function SaysAll(ps: seq<Piece>): string {
    if ps == [] then "" else Says(ps[0]) + SaysAll(ps[1..])
  }

  predicate GoodQuoted(parts: seq<Quoted>) {
    && (forall i :: 0 <= i < |parts| && parts[i].Bare? ==> parts[i].c !in {'"', '\\', '`'})
    && (forall i :: 0 < i < |parts| && parts[i - 1] == Bare('$') ==> parts[i] != Bare('('))
  }

  predicate Good(p: Piece) {
    match p
    case Plain(c) => c !in {' ', '\t', '\n', ';', '&', '|', '<', '>', '(', ')', '\\', '\'', '"', '`'}
    case Escaped(c) => c != '\n'
    case Single(text) => '\'' !in text
    case Double(parts) => GoodQuoted(parts)
    case Continued => true
  }

  predicate AllGood(ps: seq<Piece>) {
    forall i :: 0 <= i < |ps| ==> Good(ps[i])
  }

  /** A number sign or the end of a line does not begin a word. */
  predicate GoodWord(ps: seq<Piece>) {
    ps != [] && ps[0] !in {Plain('#'), Continued} && AllGood(ps)
  }

  lemma QuotedRead(q: Quoted, next: string)
    requires q.Bare? ==> q.c !in {'"', '\\', '`'} && (q.c == '$' ==> !CharAt(next, 0, '('))
    requires ReadDouble(next).Text?
    ensures ReadDouble(ShowOne(q) + next) == Text([q.c] + ReadDouble(next).text, ReadDouble(next).rest)
  {
    var s := ShowOne(q) + next;
    assert s[if q.Bare? then 1 else 2..] == next;
  }

  lemma QuoteCloses(rest: string)
    ensures ReadDouble("\"" + rest) == Text("", rest)
  {
    assert ("\"" + rest)[1..] == rest;
  }

  lemma QuotedRest(parts: seq<Quoted>)
    requires parts != [] && GoodQuoted(parts)
    ensures GoodQuoted(parts[1..]) && (parts[0].Bare? ==> parts[0].c !in {'"', '\\', '`'})
  {
  }

  lemma QuotedFirst(parts: seq<Quoted>, tail: string)
    requires parts != []
    ensures ShowQuoted(parts) + tail == ShowOne(parts[0]) + (ShowQuoted(parts[1..]) + tail)
    ensures Chars(parts) == [parts[0].c] + Chars(parts[1..])
  {
    hide ShowOne;
  }

  lemma {:induction false} DoubleReads(parts: seq<Quoted>, tail: string, rest: string)
    requires GoodQuoted(parts) && tail == "\"" + rest
    ensures ReadDouble(ShowQuoted(parts) + tail) == Text(Chars(parts), rest)
  {
    hide ReadDouble, ShowOne, GoodQuoted;
    if parts == [] {
      QuoteCloses(rest);
      assert ShowQuoted(parts) + tail == tail;
    } else {
      QuotedRest(parts);
      DoubleReads(parts[1..], tail, rest);
      if parts[0] == Bare('$') {
        NextQuoted(parts, tail);
      }
      QuotedFirst(parts, tail);
      hide ShowQuoted, Chars;
      QuotedRead(parts[0], ShowQuoted(parts[1..]) + tail);
    }
  }

  lemma NextQuoted(parts: seq<Quoted>, tail: string)
    requires parts != [] && GoodQuoted(parts) && parts[0] == Bare('$') && CharAt(tail, 0, '"')
    ensures !CharAt(ShowQuoted(parts[1..]) + tail, 0, '(')
  {
    if |parts| > 1 {
      assert parts[1..][0] == parts[1];
    }
  }

  lemma SingleRead(text: string, rest: string)
    requires '\'' !in text
    ensures ReadPiece("'" + text + "'" + rest) == Text(text, rest)
  {
    assert ("'" + text + "'" + rest)[1..] == text + "'" + rest;
    SingleUnquotes(text, rest);
    hide ReadSingle, ReadDouble;
  }

  lemma DoubleRead(parts: seq<Quoted>, rest: string)
    requires GoodQuoted(parts)
    ensures ReadPiece("\"" + ShowQuoted(parts) + "\"" + rest) == Text(Chars(parts), rest)
  {
    hide ReadSingle, ReadDouble, GoodQuoted, ShowQuoted, Chars;
    assert ("\"" + ShowQuoted(parts) + "\"" + rest)[1..] == ShowQuoted(parts) + ("\"" + rest);
    DoubleReads(parts, "\"" + rest, rest);
  }

  lemma PieceReads(p: Piece, rest: string)
    requires Good(p) && (p == Plain('$') ==> !CharAt(rest, 0, '('))
    ensures ReadPiece(Show(p) + rest) == Text(Says(p), rest)
  {
    hide ReadSingle, ReadDouble, GoodQuoted, ShowQuoted, Chars;
    match p {
      case Plain(c) => assert (Show(p) + rest)[1..] == rest;
      case Escaped(c) => assert (Show(p) + rest)[2..] == rest;
      case Continued => assert (Show(p) + rest)[2..] == rest;
      case Single(text) => SingleRead(text, rest);
      case Double(parts) => DoubleRead(parts, rest);
    }
  }

  lemma NoParenthesis(ps: seq<Piece>, rest: string)
    requires AllGood(ps) && !CharAt(rest, 0, '(')
    ensures !CharAt(ShowAll(ps) + rest, 0, '(')
  {
    if ps != [] {
      assert (ShowAll(ps) + rest)[0] == Show(ps[0])[0];
    }
  }

  lemma WordStart(p: Piece)
    requires Good(p)
    ensures Show(p) != "" && !EndsWord(Show(p)[0])
  {
  }

  /** The target of a redirection is read as it was meant. */
  lemma {:induction false} WordReads(ps: seq<Piece>, rest: string)
    requires AllGood(ps) && (rest == "" || EndsWord(rest[0])) && !CharAt(rest, 0, '(')
    ensures ReadWord(ShowAll(ps) + rest) == Text(SaysAll(ps), rest)
  {
    hide ReadPiece, EndsWord, Show, Says, Good;
    if ps == [] {
      assert ShowAll(ps) + rest == rest;
      InspectRefusals.NoWordRead(rest);
    } else {
      var more := ShowAll(ps[1..]) + rest;
      assert ShowAll(ps) + rest == Show(ps[0]) + more;
      NoParenthesis(ps[1..], rest);
      PieceReads(ps[0], more);
      WordStart(ps[0]);
      WordReads(ps[1..], rest);
      hide ReadWord;
      PieceThenWord(Show(ps[0]) + more, Says(ps[0]), more);
    }
  }

  /** One more piece of a word. */
  function Longer(st: State, p: Piece): State {
    if p.Continued? then st else State(st.word + Says(p), true, st.words)
  }

  /** What is no blank, separator, comment, parenthesis, redirection or end of a line is a piece of a word. */
  lemma PieceTurn(s: string, st: State, text: string, rest: string)
    requires s != "" && ReadPiece(s) == Text(text, rest) && !EndsWord(s[0])
    requires (s[0] == '\\' ==> !CharAt(s, 1, '\n')) && (s[0] == '#' ==> st.inWord)
    ensures Scan(s, st) == Go([], rest, State(st.word + text, true, st.words))
  {
    hide ReadPiece, ReadRedirection, IsSuffix, SkipComment;
  }

  lemma PieceScanned(p: Piece, rest: string, st: State)
    requires Good(p) && (p == Plain('$') ==> !CharAt(rest, 0, '(')) && (p == Plain('#') ==> st.inWord)
    ensures Scan(Show(p) + rest, st) == Go([], rest, Longer(st, p))
  {
    PieceReads(p, rest);
    hide Scan, ReadPiece, IsSuffix, GoodQuoted, ShowQuoted;
    var s := Show(p) + rest;
    if p.Continued? {
      LineJoined(rest, st);
    } else {
      assert s[0] == Show(p)[0] && (p.Escaped? ==> s[1] == p.c);
      PieceTurn(s, st, Says(p), rest);
    }
  }

  lemma {:induction false} PiecesScanned(ps: seq<Piece>, rest: string, st: State)
    requires AllGood(ps) && !CharAt(rest, 0, '(') && st.inWord
    ensures Split(ShowAll(ps) + rest, st) == Split(rest, State(st.word + SaysAll(ps), true, st.words))
  {
    hide Scan, Show, Says, Good;
    if ps == [] {
      assert ShowAll(ps) + rest == rest && st.word + SaysAll(ps) == st.word;
    } else {
      hide Split;
      var more := ShowAll(ps[1..]) + rest;
      assert ShowAll(ps) + rest == Show(ps[0]) + more;
      NoParenthesis(ps[1..], rest);
      PieceScanned(ps[0], more, st);
      WordStart(ps[0]);
      SplitStep(Show(ps[0]) + more, st, more, Longer(st, ps[0]));
      PiecesScanned(ps[1..], rest, Longer(st, ps[0]));
      SaysFirst(ps, st.word);
    }
  }

  lemma Grouping(a: string, b: string, c: string)
    ensures a + (b + c) == a + b + c && a + ("" + c) == a + c
  {
    assert "" + c == c;
  }

  lemma SaysFirst(ps: seq<Piece>, word: string)
    requires ps != []
    ensures word + SaysAll(ps) == word + Says(ps[0]) + SaysAll(ps[1..])
    ensures ps[0].Continued? ==> word + SaysAll(ps) == word + SaysAll(ps[1..])
  {
    Grouping(word, Says(ps[0]), SaysAll(ps[1..]));
    SaysNothing(ps[0]);
    hide Says;
  }

  lemma SaysNothing(p: Piece)
    ensures p.Continued? ==> Says(p) == ""
  {
  }

  /** A word is read as it was meant, wherever a word may begin. */
  lemma WordScanned(ps: seq<Piece>, rest: string, words: Words)
    requires GoodWord(ps) && !CharAt(rest, 0, '(')
    ensures Split(ShowAll(ps) + rest, State("", false, words)) == Split(rest, State(SaysAll(ps), true, words))
  {
    hide Scan, Show, Says, Good, Split;
    var st := State("", false, words);
    var more := ShowAll(ps[1..]) + rest;
    assert ShowAll(ps) + rest == Show(ps[0]) + more;
    NoParenthesis(ps[1..], rest);
    PieceScanned(ps[0], more, st);
    WordStart(ps[0]);
    SplitStep(Show(ps[0]) + more, st, more, Longer(st, ps[0]));
    PiecesScanned(ps[1..], rest, Longer(st, ps[0]));
    SaysFirst(ps, "");
    assert "" + SaysAll(ps) == SaysAll(ps);
  }

  // ---- comments ----

  lemma {:induction false} CommentSkipped(text: string, rest: string)
    requires '\n' !in text && (rest == "" || rest[0] == '\n')
    ensures SkipComment(text + rest) == rest
  {
    if text == "" {
      assert text + rest == rest;
    } else {
      assert (text + rest)[1..] == text[1..] + rest;
      CommentSkipped(text[1..], rest);
    }
  }

  /** Where a word may begin, a number sign drops exactly what is left of its line; inside a word it is part of it. */
  lemma NumberSign(text: string, rest: string, st: State)
    requires '\n' !in text && (rest == "" || rest[0] == '\n')
    ensures Split("#" + text + rest, st) ==
      if st.inWord then Split(text + rest, State(st.word + "#", true, st.words)) else Split(rest, st)
  {
    hide Scan, Split;
    var s := "#" + text + rest;
    assert s == Show(Plain('#')) + (text + rest);
    if st.inWord {
      PieceScanned(Plain('#'), text + rest, st);
      SplitStep(s, st, text + rest, State(st.word + "#", true, st.words));
    } else {
      CommentScanned(text, rest, st);
      SplitStep(s, st, rest, st);
    }
  }

  lemma CommentScanned(text: string, rest: string, st: State)
    requires '\n' !in text && (rest == "" || rest[0] == '\n') && !st.inWord
    ensures Scan("#" + text + rest, st) == Go([], rest, st)
  {
    assert ("#" + text + rest)[1..] == text + rest;
    CommentSkipped(text, rest);
    hide SkipComment, ReadPiece, ReadRedirection, IsSuffix;
  }

  // ---- redirections ----

  /** Reading, copying or closing a descriptor, or writing into a place that keeps nothing. */
  predicate WritesNothing(op: string, target: string) {
    || op in {"<", "<<", "<<<"}
    || (op in {">&", "<&"} && (target == "-" || (target != "" && forall c :: c in target ==> '0' <= c <= '9')))
    || (op != "<>" && target in {"/dev/null", "/dev/stdout", "/dev/stderr"})
  }

  lemma HarmlessMeans(op: string, target: string)
    ensures Harmless(op, target) <==> WritesNothing(op, target)
  {
    if forall c :: c in target ==> '0' <= c <= '9' {
      assert forall i :: 0 <= i < |target| ==> target[i] in target;
    }
  }

  predicate BlanksOnly(gap: string) {
    forall i :: 0 <= i < |gap| ==> gap[i] in {' ', '\t'}
  }

  lemma {:induction false} GapSkipped(gap: string, rest: string)
    requires BlanksOnly(gap) && rest != "" && rest[0] !in {' ', '\t'}
    ensures SkipBlanks(gap + rest) == rest
  {
    if gap == "" {
      assert gap + rest == rest;
    } else {
      assert (gap + rest)[1..] == gap[1..] + rest;
      GapSkipped(gap[1..], rest);
    }
  }

  predicate EndsTarget(rest: string) {
    (rest == "" || EndsWord(rest[0])) && !CharAt(rest, 0, '(')
  }

  lemma RedirectionReads(op: string, gap: string, target: seq<Piece>, rest: string)
    requires InspectRefusals.IsOperator(op) && BlanksOnly(gap) && target != [] && AllGood(target) && EndsTarget(rest)
    ensures var s := op + (gap + (ShowAll(target) + rest));
      s != "" && ReadRedirection(s) == if WritesNothing(op, SaysAll(target)) then Some(rest) else None
  {
    hide ReadOperator, SkipBlanks, ReadWord, Harmless, WritesNothing, IsSuffix, BlanksOnly, EndsWord, ShowAll, SaysAll,
      AllGood, EndsTarget;
    var word := ShowAll(target) + rest;
    var tail := gap + word;
    TargetStart(target, rest);
    GapStart(gap, word);
    InspectRefusals.OperatorRead(op[1..], [op[0]], tail);
    WordNoBlank(word);
    GapSkipped(gap, word);
    TargetReads(target, rest);
    HarmlessMeans(op, SaysAll(target));
    assert (op + tail)[1..] == op[1..] + tail && [op[0]] + op[1..] == op;
  }

  lemma WordNoBlank(word: string)
    requires word != "" && !EndsWord(word[0])
    ensures word[0] !in {' ', '\t'}
  {
  }

  lemma TargetReads(target: seq<Piece>, rest: string)
    requires AllGood(target) && EndsTarget(rest)
    ensures ReadWord(ShowAll(target) + rest) == Text(SaysAll(target), rest)
  {
    WordReads(target, rest);
  }

  lemma TargetStart(target: seq<Piece>, rest: string)
    requires target != [] && AllGood(target)
    ensures var word := ShowAll(target) + rest; word != "" && !EndsWord(word[0])
  {
    WordStart(target[0]);
    hide Show, EndsWord;
    assert (ShowAll(target) + rest)[0] == Show(target[0])[0];
  }

  lemma GapStart(gap: string, word: string)
    requires BlanksOnly(gap) && word != "" && !EndsWord(word[0])
    ensures var tail := gap + word; tail != "" && !InspectRefusals.OperatorChar(tail[0]) && tail[0] != '('
  {
    if gap == "" {
      assert gap + word == word;
    }
  }

  lemma RedirectionScans(op: string, gap: string, target: seq<Piece>, rest: string, st: State)
    requires InspectRefusals.IsOperator(op) && BlanksOnly(gap) && target != [] && AllGood(target) && EndsTarget(rest)
    ensures var s := op + (gap + (ShowAll(target) + rest));
      s != "" && Scan(s, st) == if WritesNothing(op, SaysAll(target))
        then Go([], rest, State("", false, EndWord(DropDescriptor(st)))) else Stop
  {
    hide ReadRedirection, WritesNothing, IsSuffix, Scan, DropDescriptor, EndWord, StartsRedirection, Separator,
      ShowAll, SaysAll, AllGood, BlanksOnly, EndsTarget, EndsWord, InspectRefusals.IsOperator,
      InspectRefusals.OperatorChar;
    RedirectionReads(op, gap, target, rest);
    TargetStart(target, rest);
    GapStart(gap, ShowAll(target) + rest);
    OperatorStarts(op, gap + (ShowAll(target) + rest));
    ReadsAsRedirection(op + (gap + (ShowAll(target) + rest)), st);
  }

  lemma OperatorStarts(op: string, tail: string)
    requires InspectRefusals.IsOperator(op) && tail != "" && !InspectRefusals.OperatorChar(tail[0])
    ensures var s := op + tail; s != "" && StartsRedirection(s) && Separator(s) == 0 && s[0] in {'<', '>', '&'}
  {
    var s := op + tail;
    assert s[0] == op[0] && (|op| > 1 ==> s[1] == op[1]) && (|op| == 1 ==> s[1] == tail[0]);
  }

  // ---- commands ----

  datatype Token =
    | Word(pieces: seq<Piece>)
    | Blank(c: char)
    | Continuation
    | Separate(text: string)
    | Comment(text: string)
    | Redirect(descriptor: string, op: string, gap: string, target: seq<Piece>)

  function ShowToken(t: Token): string {
    match t
    case Word(ps) => ShowAll(ps)
    case Blank(c) => [c]
    case Continuation => "\\\n"
    case Separate(text) => text
    case Comment(text) => "#" + text
    case Redirect(descriptor, op, gap, target) => descriptor + (op + (gap + ShowAll(target)))
  }

  function ShowTokens(ts: seq<Token>): string {
    if ts == [] then "" else ShowToken(ts[0]) + ShowTokens(ts[1..])
  }

  predicate GoodToken(t: Token) {
    match t
    case Word(ps) => GoodWord(ps)
    case Blank(c) => c in {' ', '\t'}
    case Continuation => true
    case Separate(text) => text in {"\n", ";", "&&", "||", "|", "|&", "&"}
    case Comment(text) => '\n' !in text
    case Redirect(descriptor, op, gap, target) =>
      && (descriptor == "" || Digits(descriptor)) && InspectRefusals.IsOperator(op) && BlanksOnly(gap)
      && target != [] && AllGood(target) && WritesNothing(op, SaysAll(target))
  }

  /** What can stand right behind what without becoming part of it. */
  predicate MayFollow(a: Token, b: Token) {
    match a
    case Word(ps) => b.Blank? || b.Separate? || (b.Redirect? && b.descriptor == "" && !Digits(SaysAll(ps)))
    case Redirect(_, _, _, _) => b.Blank? || b.Separate? || (b.Redirect? && b.descriptor == "")
    case Comment(_) => b == Separate("\n")
    case Separate(text) => text in {"|", "&"} ==> !b.Separate? && !(b.Redirect? && b.descriptor == "")
    case _ => true
  }

  predicate GoodTokens(ts: seq<Token>) {
    && (forall i :: 0 <= i < |ts| ==> GoodToken(ts[i]))
    && (forall i :: 0 < i < |ts| ==> MayFollow(ts[i - 1], ts[i]))
  }

  /**
    The programs that are meant, when `words` are those of the program so far: separators end it, the
    rest is no word.
   */
  function Meant(ts: seq<Token>, words: Words): seq<Words> {
    if ts == [] then if words == [] then [] else [words]
    else
      match ts[0]
      case Word(ps) => Meant(ts[1..], words + [SaysAll(ps)])
      case Separate(_) => (if words == [] then [] else [words]) + Meant(ts[1..], [])
      case _ => Meant(ts[1..], words)
  }

  /** Whatever a token follows, it begins with one of these characters. */
  predicate Begins(t: Token, c: char) {
    match t
    case Word(_) => !EndsWord(c)
    case Blank(b) => c == b && c in {' ', '\t'}
    case Continuation => c == '\\'
    case Separate(text) => c in {'\n', ';', '&', '|'} && (text == "\n" ==> c == '\n')
    case Comment(_) => c == '#'
    case Redirect(descriptor, _, _, _) => if descriptor == "" then c in {'<', '>', '&'} else IsDigit(c)
  }

  lemma TokenBegins(ts: seq<Token>)
    requires GoodTokens(ts) && ts != []
    ensures ShowTokens(ts) != "" && Begins(ts[0], ShowTokens(ts)[0])
  {
    OneBegins(ts[0]);
    hide Begins, GoodToken, MayFollow, ShowToken;
    assert ShowTokens(ts)[0] == ShowToken(ts[0])[0];
  }

  lemma OneBegins(t: Token)
    requires GoodToken(t)
    ensures ShowToken(t) != "" && Begins(t, ShowToken(t)[0])
  {
    match t {
      case Word(ps) =>
        WordStart(ps[0]);
        hide Show, Good, EndsWord;
        assert ShowToken(t)[0] == Show(ps[0])[0];
      case Redirect(descriptor, op, gap, target) =>
        hide ShowAll, SaysAll, WritesNothing, AllGood, BlanksOnly;
        assert ShowToken(t)[0] == if descriptor == "" then op[0] else descriptor[0];
      case _ =>
    }
  }

  lemma GoodRest(ts: seq<Token>)
    requires ts != [] && GoodTokens(ts)
    ensures GoodTokens(ts[1..]) && GoodToken(ts[0]) && (|ts| > 1 ==> MayFollow(ts[0], ts[1]))
  {
    hide GoodToken, MayFollow;
  }

  /** What the tokens behind the first one let follow it. */
  lemma RestBegins(ts: seq<Token>)
    requires ts != [] && GoodTokens(ts)
    ensures var rest := ShowTokens(ts[1..]);
      && !CharAt(rest, 0, '(')
      && (ts[0].Redirect? ==> EndsTarget(rest))
      && (ts[0].Comment? ==> rest == "" || rest[0] == '\n')
      && (ts[0].Separate? && ts[0].text in {"|", "&"} ==> rest == "" || rest[0] !in {'|', '&', '>'})
  {
    GoodRest(ts);
    if |ts| > 1 {
      TokenBegins(ts[1..]);
    }
    hide GoodTokens, GoodToken, Digits;
  }

  lemma SeparatorScans(sep: string, rest: string, st: State)
    requires sep in SEPARATORS && (sep in {"|", "&"} ==> rest == "" || rest[0] !in {'|', '&', '>'})
    ensures Scan(sep + rest, st) == Go(EndSegment(st), rest, START)
  {
    hide ReadPiece, ReadRedirection, EndSegment, IsSuffix;
    var s := sep + rest;
    assert s[|sep|..] == rest;
    assert Separator(s) == |sep|;
  }

  lemma SeparatorRead(sep: string, rest: string, st: State)
    requires sep in SEPARATORS && (sep in {"|", "&"} ==> rest == "" || rest[0] !in {'|', '&', '>'})
    ensures Split(sep + rest, st) == Joined(EndSegment(st), Split(rest, START))
  {
    hide Scan;
    SeparatorScans(sep, rest, st);
    assert sep + rest != "";
  }

  lemma BlankRead(c: char, rest: string, st: State)
    requires c in {' ', '\t'}
    ensures Split([c] + rest, st) == Split(rest, State("", false, EndWord(st)))
  {
    assert ([c] + rest)[1..] == rest;
    SplitStep([c] + rest, st, rest, State("", false, EndWord(st)));
  }

  lemma ContinuationRead(rest: string, st: State)
    ensures Split("\\\n" + rest, st) == Split(rest, st)
  {
    LineJoined(rest, st);
    hide Scan;
    SplitStep("\\\n" + rest, st, rest, st);
  }

  function AsPieces(descriptor: string): seq<Piece> {
    seq(|descriptor|, i requires 0 <= i < |descriptor| => Plain(descriptor[i]))
  }

  lemma {:induction false} ShownAsIs(text: string)
    ensures ShowAll(AsPieces(text)) == text == SaysAll(AsPieces(text))
  {
    if text != "" {
      ShownAsIs(text[1..]);
      assert AsPieces(text)[1..] == AsPieces(text[1..]) && AsPieces(text)[0] == Plain(text[0]);
      assert text == [text[0]] + text[1..];
    }
  }

  lemma DescriptorRead(descriptor: string, rest: string, words: Words)
    requires Digits(descriptor) && !CharAt(rest, 0, '(')
    ensures Split(descriptor + rest, State("", false, words)) == Split(rest, State(descriptor, true, words))
  {
    ShownAsIs(descriptor);
    assert GoodWord(AsPieces(descriptor));
    hide GoodWord, ShowAll, SaysAll, Split;
    WordScanned(AsPieces(descriptor), rest, words);
  }

  /** A redirection of a descriptor is no word, and neither is its target. */
  lemma RedirectRead(t: Token, rest: string, st: State)
    requires t.Redirect? && GoodToken(t) && EndsTarget(rest)
    requires st.inWord ==> t.descriptor == "" && !Digits(st.word)
    requires !st.inWord ==> st.word == ""
    ensures Split(ShowToken(t) + rest, st) == Split(rest, State("", false, EndWord(st)))
  {
    hide Scan, Split, EndsTarget, WritesNothing, AllGood, ShowAll, SaysAll, BlanksOnly, Digits;
    var s := t.op + (t.gap + (ShowAll(t.target) + rest));
    var at := if t.descriptor == "" then st else State(t.descriptor, true, st.words);
    assert ShowToken(t) + rest == t.descriptor + s;
    if t.descriptor == "" {
      assert t.descriptor + s == s;
    } else {
      assert s[0] == t.op[0];
      DescriptorRead(t.descriptor, s, st.words);
    }
    RedirectionScans(t.op, t.gap, t.target, rest, at);
    SplitStep(s, at, rest, State("", false, EndWord(DropDescriptor(at))));
  }

  /** What may stand right behind this word. */
  predicate Parts(word: string, t: Token) {
    t.Blank? || t.Separate? || (t.Redirect? && t.descriptor == "" && !Digits(word))
  }

  /** The scanner's state goes with what comes next. */
  ghost predicate Before(st: State, ts: seq<Token>) {
    && GoodTokens(ts) && (!st.inWord ==> st.word == "")
    && (st.inWord && ts != [] ==> Parts(st.word, ts[0]))
  }

  function After(st: State, t: Token): State {
    match t
    case Word(ps) => State(SaysAll(ps), true, st.words)
    case Separate(_) => START
    case Blank(_) => State("", false, EndWord(st))
    case Redirect(_, _, _, _) => State("", false, EndWord(st))
    case _ => st
  }

  lemma TokenRead(t: Token, rest: string, st: State)
    requires GoodToken(t) && (!st.inWord ==> st.word == "") && (st.inWord ==> Parts(st.word, t))
    requires !CharAt(rest, 0, '(') && (t.Redirect? ==> EndsTarget(rest))
    requires t.Comment? ==> rest == "" || rest[0] == '\n'
    requires t.Separate? && t.text in {"|", "&"} ==> rest == "" || rest[0] !in {'|', '&', '>'}
    ensures Split(ShowToken(t) + rest, st)
      == Joined(if t.Separate? then EndSegment(st) else [], Split(rest, After(st, t)))
  {
    hide Split, EndsTarget, ShowAll, SaysAll, AllGood, GoodWord, WritesNothing, BlanksOnly, Digits;
    JoinedNothing(Split(rest, After(st, t)));
    match t {
      case Word(ps) => WordScanned(ps, rest, st.words);
      case Blank(c) => BlankRead(c, rest, st);
      case Continuation => ContinuationRead(rest, st);
      case Separate(sep) => SeparatorRead(sep, rest, st);
      case Comment(text) => NumberSign(text, rest, st);
      case Redirect(_, _, _, _) => RedirectRead(t, rest, st);
    }
  }

  lemma AfterIsBefore(ts: seq<Token>, st: State)
    requires ts != [] && Before(st, ts)
    ensures Before(After(st, ts[0]), ts[1..])
  {
    GoodRest(ts);
    hide GoodTokens, GoodToken, Digits, SaysAll;
  }

  lemma MeantNext(ts: seq<Token>, st: State)
    requires ts != [] && (st.inWord ==> Parts(st.word, ts[0]))
    ensures Joined(if ts[0].Separate? then EndSegment(st) else [], Some(Meant(ts[1..], EndWord(After(st, ts[0])))))
      == Some(Meant(ts, EndWord(st)))
  {
    hide Digits, SaysAll;
    JoinedNothing(Some(Meant(ts[1..], EndWord(After(st, ts[0])))));
  }

  lemma {:induction false} TokensRead(ts: seq<Token>, st: State)
    requires Before(st, ts)
    ensures Split(ShowTokens(ts), st) == Some(Meant(ts, EndWord(st)))
  {
    if ts != [] {
      AfterIsBefore(ts, st);
      GoodRest(ts);
      RestBegins(ts);
      hide GoodTokens, GoodToken, MayFollow, ShowToken, SaysAll, Digits, EndsTarget;
      TokensRead(ts[1..], After(st, ts[0]));
      hide Split, Meant, After, EndWord;
      TokenRead(ts[0], ShowTokens(ts[1..]), st);
      MeantNext(ts, st);
    }
  }

  /**
    However a command is written, with plain, escaped and quoted words, continued lines, comments and
    redirections that write nothing, it is split into exactly the programs that are meant.
   */
  lemma WrittenReadsBack(ts: seq<Token>)
    requires GoodTokens(ts)
    ensures SplitCommand(ShowTokens(ts)) == Some(Meant(ts, []))
  {
    TokensRead(ts, START);
    hide GoodTokens, ShowTokens, Meant, Split;
  }
}
