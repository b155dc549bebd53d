/** Splitting a shell command into the words of the programs it runs. */
module Inspect {
  import opened Prelude

  type Words = seq<string>

  const SINKS: set<string> := {"/dev/null", "/dev/stdout", "/dev/stderr"}

  predicate IsDigit(c: char) {
    '0' <= c <= '9'
  }

  predicate Digits(s: string) {
    s != "" && forall i :: 0 <= i < |s| ==> IsDigit(s[i])
  }

  /** The character at an index, if there is one. */
  predicate CharAt(s: string, i: nat, c: char) {
    i < |s| && s[i] == c
  }

  predicate EndsWord(c: char) {
    c in {' ', '\t', '\n', ';', '&', '|', '<', '>', '(', ')'}
  }

  /** What is read, and what is left to read. */
  datatype Read = Refused | Text(text: string, rest: string)

  predicate IsSuffix(r: string, s: string) {
    |r| <= |s| && r == s[|s| - |r|..]
  }

  // ---- one word ----

  /** Up to the closing single quote. */
  function ReadSingle(s: string): (r: Read)
    ensures r.Text? ==> |r.rest| < |s| && IsSuffix(r.rest, s)
  {
    if s == "" then Refused
    else if s[0] == '\'' then Text("", s[1..])
    else
      match ReadSingle(s[1..])
      case Refused => Refused
      case Text(text, rest) => Text([s[0]] + text, rest)
  }

  /** Up to the closing double quote; a backslash takes the next character as it is. */
  function ReadDouble(s: string): (r: Read)
    ensures r.Text? ==> |r.rest| < |s| && IsSuffix(r.rest, s)
  {
    if s == "" then Refused
    else if s[0] == '"' then Text("", s[1..])
    else if s[0] == '`' || (s[0] == '$' && CharAt(s, 1, '(')) then Refused
    else
      var n := if s[0] == '\\' && |s| > 1 then 1 else 0;
      match ReadDouble(s[n + 1..])
      case Refused => Refused
      case Text(text, rest) => Text([s[n]] + text, rest)
  }

  /** One quoted string, escape or plain character. */
  function ReadPiece(s: string): (r: Read)
    requires s != ""
    ensures r.Text? ==> |r.rest| < |s| && IsSuffix(r.rest, s)
  {
    if s[0] == '`' || (s[0] == '$' && CharAt(s, 1, '(')) then Refused
    else if s[0] == '\\' then
      if |s| == 1 then Text("", "") else Text(if s[1] == '\n' then "" else [s[1]], s[2..])
    else if s[0] == '\'' then ReadSingle(s[1..])
    else if s[0] == '"' then ReadDouble(s[1..])
    else Text([s[0]], s[1..])
  }

  function ReadWord(s: string): (r: Read)
    ensures r.Text? ==> IsSuffix(r.rest, s)
  {
    if s == "" || EndsWord(s[0]) then Text("", s)
    else
      match ReadPiece(s)
      case Refused => Refused
      case Text(piece, rest) =>
        match ReadWord(rest)
        case Refused => Refused
        case Text(word, after) => Text(piece + word, after)
  }

  // ---- redirections ----

  /** The rest of an operator of which `op` has been read. */
  function ReadOperator(s: string, op: string): (r: (string, string))
    ensures IsSuffix(r.1, s)
  {
    if s != "" && s[0] in {'<', '>', '&', '|'} && |op| < 3 then ReadOperator(s[1..], op + [s[0]]) else (op, s)
  }

  function SkipBlanks(s: string): (r: string)
    ensures IsSuffix(r, s)
  {
    if s != "" && s[0] in {' ', '\t'} then SkipBlanks(s[1..]) else s
  }

  /** Reading is fine, duplicating descriptors too, writing only into a sink. */
  predicate Harmless(op: string, target: string) {
    if op == ">&" || op == "<&" then Digits(target) || target == "-" || target in SINKS
    else if op == "<" || op == "<<" || op == "<<<" then true
    else op != "<>" && target in SINKS
  }

  /** What follows a redirection, if it writes nowhere. */
  function ReadRedirection(s: string): (r: Option<string>)
    requires s != ""
    ensures r.Some? ==> |r.value| < |s| && IsSuffix(r.value, s)
  {
    hide IsSuffix, Harmless;
    var (op, rest) := ReadOperator(s[1..], [s[0]]);
    if CharAt(rest, 0, '(') then None
    else
      var start := SkipBlanks(rest);
      match ReadWord(start)
      case Refused => None
      case Text(target, after) =>
        SuffixChain(after, start, rest, s);
        if Harmless(op, target) then Some(after) else None
  }

  lemma SuffixChain(after: string, start: string, rest: string, s: string)
    requires s != "" && IsSuffix(after, start) && IsSuffix(start, rest) && IsSuffix(rest, s[1..])
    ensures |after| < |s| && IsSuffix(after, s)
  {
    SuffixTransitive(after, start, rest);
    SuffixTransitive(after, rest, s[1..]);
    SuffixTransitive(after, s[1..], s);
  }

  // ---- the whole command ----

  function SkipComment(s: string): (r: string)
    ensures IsSuffix(r, s)
  {
    if s == "" || s[0] == '\n' then s else SkipComment(s[1..])
  }

  /** The word being read, whether there is one (it can be empty), and the words before it. */
  datatype State = State(word: string, inWord: bool, words: Words)

  const START := State("", false, [])

  function EndWord(st: State): Words {
    if st.inWord then st.words + [st.word] else st.words
  }

  function EndSegment(st: State): seq<Words> {
    if EndWord(st) == [] then [] else [EndWord(st)]
  }

  function DropDescriptor(st: State): State {
    if st.inWord && Digits(st.word) then State("", false, st.words) else st
  }

  predicate StartsRedirection(s: string)
    requires s != ""
  {
    s[0] == '>' || s[0] == '<' || (s[0] == '&' && CharAt(s, 1, '>'))
  }

  function Joined(first: seq<Words>, rest: Option<seq<Words>>): Option<seq<Words>> {
    if rest.None? then None else Some(first + rest.value)
  }

  /** How many characters of `s` separate two programs; 0 when it does not start with a separator. */
  function Separator(s: string): (n: nat)
    requires s != ""
    ensures n <= |s|
  {
    if s[0] == '\n' || s[0] == ';' then 1
    else if s[0] == '|' then if CharAt(s, 1, '|') || CharAt(s, 1, '&') then 2 else 1
    else if s[0] == '&' && CharAt(s, 1, '&') then 2
    else if s[0] == '&' && !CharAt(s, 1, '>') then 1
    else 0
  }

  /** One turn of the scanner: the programs it completes, what is left to read, and the state it reads on in. */
  datatype Turn = Stop | Go(done: seq<Words>, rest: string, state: State)

  function Scan(s: string, st: State): (r: Turn)
    requires s != ""
    ensures r.Go? ==> |r.rest| < |s| && IsSuffix(r.rest, s)
  {
    if s[0] == ' ' || s[0] == '\t' then Go([], s[1..], State("", false, EndWord(st)))
    else if s[0] == '\\' && CharAt(s, 1, '\n') then Go([], s[2..], st)
    else if Separator(s) > 0 then Go(EndSegment(st), s[Separator(s)..], START)
    else if s[0] == '#' && !st.inWord then Go([], SkipComment(s[1..]), st)
    else if s[0] == '(' || s[0] == ')' then Stop
    else if StartsRedirection(s) then
      match ReadRedirection(s)
      case None => Stop
      case Some(rest) => Go([], rest, State("", false, EndWord(DropDescriptor(st))))
    else
      match ReadPiece(s)
      case Refused => Stop
      case Text(piece, rest) => Go([], rest, State(st.word + piece, true, st.words))
  }

  /** The programs' words in what is left of a command, or none when it could run or write anything else. */
  function Split(s: string, st: State): Option<seq<Words>>
    decreases |s|
  {
    if s == "" then Some(EndSegment(st))
    else
      match Scan(s, st)
      case Stop => None
      case Go(done, rest, state) => Joined(done, Split(rest, state))
  }

  function SplitCommand(command: string): Option<seq<Words>> {
    Split(command, START)
  }

  /** Every program in the command is used to read, for a given test of one program. */
  predicate IsInspection(command: string, test: Words -> bool) {
    var segments := SplitCommand(command);
    segments.Some? && segments.value != [] && forall i :: 0 <= i < |segments.value| ==> test(segments.value[i])
  }

  lemma {:induction false} SegmentsNonEmpty(s: string, st: State)
    requires Split(s, st).Some?
    ensures forall i :: 0 <= i < |Split(s, st).value| ==> Split(s, st).value[i] != []
    decreases |s|
  {
    if s != "" {
      var t := Scan(s, st);
      SegmentsNonEmpty(t.rest, t.state);
    }
  }

  // ---- a newline separates ----

  /** Reading a word ends on a backslash that escapes nothing. */
  predicate WordDangles(s: string)
    decreases |s|
  {
    s != "" && !EndsWord(s[0]) && (s == "\\" || (ReadPiece(s).Text? && WordDangles(ReadPiece(s).rest)))
  }

  /** So does reading the target of a redirection. */
  predicate RedirectionDangles(s: string)
    requires s != ""
  {
    WordDangles(SkipBlanks(ReadOperator(s[1..], [s[0]]).1))
  }

  /** Scanning the text ends on a backslash that escapes nothing: not a quoted, escaped or commented one. */
  predicate Dangles(s: string, st: State)
    decreases |s|
  {
    s != "" &&
    (s == "\\" || (StartsRedirection(s) && RedirectionDangles(s)) ||
     (Scan(s, st).Go? && Dangles(Scan(s, st).rest, Scan(s, st).state)))
  }

  lemma {:induction false} SingleExtends(a: string, y: string)
    requires ReadSingle(a).Text?
    ensures ReadSingle(a + y) == Text(ReadSingle(a).text, ReadSingle(a).rest + y)
  {
    if a[0] != '\'' {
      assert (a + y)[1..] == a[1..] + y;
      SingleExtends(a[1..], y);
    } else {
      assert (a + y)[1..] == a[1..] + y;
    }
  }

  /** One character, or an escaped one, of a double-quoted text is read before anything that follows it. */
  lemma DoubleStep(a: string, y: string) returns (n: nat)
    requires ReadDouble(a).Text? && a[0] != '"'
    ensures n + 1 < |a| && ReadDouble(a[n + 1..]).Text?
    ensures ReadDouble(a) == Text([a[n]] + ReadDouble(a[n + 1..]).text, ReadDouble(a[n + 1..]).rest)
    ensures ReadDouble(a[n + 1..] + y).Text? ==>
      ReadDouble(a + y) == Text([a[n]] + ReadDouble(a[n + 1..] + y).text, ReadDouble(a[n + 1..] + y).rest)
  {
    n := if a[0] == '\\' && |a| > 1 then 1 else 0;
    assert |a| > 1;
    assert (a + y)[n + 1..] == a[n + 1..] + y;
  }

  lemma {:induction false} DoubleExtends(a: string, y: string)
    requires ReadDouble(a).Text?
    ensures ReadDouble(a + y) == Text(ReadDouble(a).text, ReadDouble(a).rest + y)
  {
    if a[0] == '"' {
      assert (a + y)[1..] == a[1..] + y;
    } else {
      var n := DoubleStep(a, y);
      hide ReadDouble;
      DoubleExtends(a[n + 1..], y);
    }
  }

  lemma PieceExtends(a: string, y: string)
    requires a != "" && a != "\\" && CharAt(y, 0, '\n') && ReadPiece(a).Text?
    ensures ReadPiece(a + y) == Text(ReadPiece(a).text, ReadPiece(a).rest + y)
  {
    assert (a + y)[1..] == a[1..] + y;
    if a[0] == '\\' {
      assert (a + y)[2..] == a[2..] + y;
    } else if a[0] == '\'' {
      SingleExtends(a[1..], y);
    } else if a[0] == '"' {
      DoubleExtends(a[1..], y);
    }
  }

  lemma PieceThenWord(s: string, piece: string, rest: string)
    requires s != "" && !EndsWord(s[0]) && ReadPiece(s) == Text(piece, rest) && ReadWord(rest).Text?
    ensures ReadWord(s) == Text(piece + ReadWord(rest).text, ReadWord(rest).rest)
  {
    hide ReadPiece, EndsWord;
  }

  lemma {:induction false} WordExtends(a: string, y: string)
    requires !WordDangles(a) && CharAt(y, 0, '\n') && ReadWord(a).Text?
    ensures ReadWord(a + y) == Text(ReadWord(a).text, ReadWord(a).rest + y)
    decreases |a|
  {
    if a == "" {
      assert a + y == y;
    } else if !EndsWord(a[0]) {
      PieceExtends(a, y);
      var piece, rest := ReadPiece(a).text, ReadPiece(a).rest;
      WordExtends(rest, y);
      PieceThenWord(a, piece, rest);
      hide ReadPiece;
      PieceThenWord(a + y, piece, rest + y);
    }
  }

  lemma {:induction false} OperatorExtends(a: string, op: string, y: string)
    requires CharAt(y, 0, '\n')
    ensures var r := ReadOperator(a, op); ReadOperator(a + y, op) == (r.0, r.1 + y)
  {
    if a == "" {
      assert a + y == y;
    } else {
      assert (a + y)[1..] == a[1..] + y;
      if a[0] in {'<', '>', '&', '|'} && |op| < 3 {
        OperatorExtends(a[1..], op + [a[0]], y);
      }
    }
  }

  lemma {:induction false} BlanksExtend(a: string, y: string)
    requires CharAt(y, 0, '\n')
    ensures SkipBlanks(a + y) == SkipBlanks(a) + y
  {
    if a == "" {
      assert a + y == y;
    } else {
      assert (a + y)[1..] == a[1..] + y;
      if a[0] in {' ', '\t'} {
        BlanksExtend(a[1..], y);
      }
    }
  }

  lemma SuffixTransitive(r: string, m: string, s: string)
    requires IsSuffix(r, m) && IsSuffix(m, s)
    ensures IsSuffix(r, s)
  {
  }

  lemma RedirectionExtends(a: string, y: string)
    requires a != "" && !RedirectionDangles(a) && CharAt(y, 0, '\n') && ReadRedirection(a).Some?
    ensures ReadRedirection(a + y) == Some(ReadRedirection(a).value + y)
  {
    hide ReadWord, ReadOperator, SkipBlanks, Harmless, WordDangles;
    assert (a + y)[1..] == a[1..] + y;
    OperatorExtends(a[1..], [a[0]], y);
    var (op, rest) := ReadOperator(a[1..], [a[0]]);
    var target := SkipBlanks(rest);
    BlanksExtend(rest, y);
    WordExtends(target, y);
  }

  lemma {:induction false} CommentExtends(a: string, y: string)
    requires CharAt(y, 0, '\n')
    ensures SkipComment(a + y) == SkipComment(a) + y
  {
    if a == "" {
      assert a + y == y;
    } else {
      assert (a + y)[1..] == a[1..] + y;
      if a[0] != '\n' {
        CommentExtends(a[1..], y);
      }
    }
  }

  lemma JoinedNothing(r: Option<seq<Words>>)
    ensures Joined([], r) == r
  {
    if r.Some? {
      assert [] + r.value == r.value;
    }
  }

  lemma JoinedTwice(a: seq<Words>, b: seq<Words>, r: Option<seq<Words>>)
    ensures Joined(a, Joined(b, r)) == Joined(a + b, r)
  {
    if r.Some? {
      assert a + (b + r.value) == a + b + r.value;
    }
  }

  lemma SeparatorExtends(a: string, y: string)
    requires a != "" && CharAt(y, 0, '\n')
    ensures Separator(a + y) == Separator(a) && (a + y)[Separator(a)..] == a[Separator(a)..] + y
    ensures StartsRedirection(a + y) <==> StartsRedirection(a)
    ensures a != "\\" && a[0] == '\\' ==> (CharAt(a + y, 1, '\n') <==> CharAt(a, 1, '\n'))
  {
  }

  lemma ScanExtends(a: string, y: string, st: State)
    requires a != "" && a != "\\" && (StartsRedirection(a) ==> !RedirectionDangles(a))
    requires CharAt(y, 0, '\n') && Scan(a, st).Go?
    ensures Scan(a + y, st) == Scan(a, st).(rest := Scan(a, st).rest + y)
  {
    hide ReadRedirection, ReadPiece, SkipComment, Digits, Separator, StartsRedirection, RedirectionDangles, IsSuffix,
      EndSegment, EndWord;
    SeparatorExtends(a, y);
    assert (a + y)[0] == a[0] && (a + y)[1..] == a[1..] + y;
    if a[0] == ' ' || a[0] == '\t' {
    } else if a[0] == '\\' && CharAt(a, 1, '\n') {
      assert (a + y)[2..] == a[2..] + y;
    } else if Separator(a) > 0 {
    } else if a[0] == '#' && !st.inWord {
      CommentExtends(a[1..], y);
    } else if StartsRedirection(a) {
      RedirectionExtends(a, y);
    } else {
      PieceExtends(a, y);
    }
  }

  /** Reading on past a prefix that does not dangle, at a newline: the rest is split as if it stood alone. */
  lemma {:induction false} SplitExtends(a: string, y: string, st: State)
    requires !Dangles(a, st) && CharAt(y, 0, '\n') && Split(a, st).Some?
    ensures Split(a + y, st) == Joined(Split(a, st).value, SplitCommand(y[1..]))
    decreases |a|
  {
    hide Scan, RedirectionDangles;
    if a == "" {
      assert a + y == y;
      NewlineSeparates(y, st);
    } else {
      var t := Scan(a, st);
      ScanExtends(a, y, st);
      SplitExtends(t.rest, y, t.state);
      JoinedTwice(t.done, Split(t.rest, t.state).value, SplitCommand(y[1..]));
    }
  }

  lemma NewlineSeparates(y: string, st: State)
    requires CharAt(y, 0, '\n')
    ensures Scan(y, st) == Go(EndSegment(st), y[1..], START)
  {
  }

  /** Two commands on two lines run the programs of the first and then those of the second. */
  lemma SplitLines(a: string, b: string)
    requires !Dangles(a, START) && SplitCommand(a).Some?
    ensures SplitCommand(a + "\n" + b) ==
      if SplitCommand(b).None? then None else Some(SplitCommand(a).value + SplitCommand(b).value)
  {
    SplitExtends(a, "\n" + b, START);
    assert ("\n" + b)[1..] == b;
    assert a + "\n" + b == a + ("\n" + b);
  }

  // ---- a dangling backslash joins ----

  lemma {:induction false} WordDanglesEnds(s: string)
    requires WordDangles(s)
    ensures s[|s| - 1] == '\\'
    decreases |s|
  {
    if s != "\\" {
      WordDanglesEnds(ReadPiece(s).rest);
    }
  }

  /** Only a text that ends in a backslash dangles. */
  lemma {:induction false} DanglesEnds(s: string, st: State)
    requires Dangles(s, st)
    ensures s[|s| - 1] == '\\'
    decreases |s|
  {
    hide Scan, WordDangles, RedirectionDangles, StartsRedirection, IsSuffix;
    if s != "\\" {
      if StartsRedirection(s) && RedirectionDangles(s) {
        RedirectionDanglesEnds(s);
      } else {
        DanglesEnds(Scan(s, st).rest, Scan(s, st).state);
        LastOfSuffix(Scan(s, st).rest, s);
      }
    }
  }

  lemma LastOfSuffix(r: string, s: string)
    requires r != "" && IsSuffix(r, s)
    ensures s != "" && r[|r| - 1] == s[|s| - 1]
  {
  }

  lemma RedirectionDanglesEnds(s: string)
    requires s != "" && RedirectionDangles(s)
    ensures s[|s| - 1] == '\\'
  {
    hide WordDangles, ReadOperator, SkipBlanks, IsSuffix;
    var rest := ReadOperator(s[1..], [s[0]]).1;
    var word := SkipBlanks(rest);
    WordDanglesEnds(word);
    DanglingWord(word);
    LastOfSuffix(word, rest);
    LastOfSuffix(rest, s[1..]);
  }

  lemma DanglingWord(s: string)
    requires WordDangles(s)
    ensures s != ""
  {
  }

  lemma LetterPiece(d: char)
    requires 'a' <= d <= 'z'
    ensures ReadPiece([d]) == Text([d], "") && !EndsWord(d) && ReadWord("") == Text("", "")
  {
    assert [d][1..] == "";
  }

  lemma LetterRead(d: char)
    requires 'a' <= d <= 'z'
    ensures ReadWord([d]) == Text([d], "")
  {
    hide ReadPiece, EndsWord, ReadWord;
    LetterPiece(d);
    PieceThenWord([d], [d], "");
    assert [d] + "" == [d];
  }

  lemma JoinedPiece(more: string)
    ensures ReadPiece("\\\n" + more) == Text("", more) && ReadPiece("\\") == Text("", "") && !EndsWord('\\')
  {
    assert ("\\\n" + more)[2..] == more;
  }

  lemma LoneWord(d: char)
    requires 'a' <= d <= 'z'
    ensures ReadWord("\\") == Text("", "") && ReadWord("\\\n" + [d]) == Text([d], "")
  {
    hide ReadPiece, EndsWord, ReadWord;
    LetterRead(d);
    LetterPiece(d);
    JoinedPiece([d]);
    PieceThenWord("\\\n" + [d], "", [d]);
    PieceThenWord("\\", "", "");
    assert "" + [d] == [d] && "" + "" == "";
  }

  lemma DanglingStep(a: string)
    requires WordDangles(a) && ReadWord(a).Text? && a != "\\"
    ensures !EndsWord(a[0]) && ReadPiece(a).Text?
    ensures var rest := ReadPiece(a).rest;
      && WordDangles(rest) && ReadWord(rest).Text?
      && ReadWord(a) == Text(ReadPiece(a).text + ReadWord(rest).text, ReadWord(rest).rest)
  {
    hide ReadPiece, EndsWord;
  }

  /** A dangling word is read on over the line's end. */
  lemma {:induction false} WordReadsOn(a: string, d: char)
    requires WordDangles(a) && ReadWord(a).Text? && 'a' <= d <= 'z'
    ensures ReadWord(a).rest == "" && ReadWord(a + "\n" + [d]) == Text(ReadWord(a).text + [d], "")
    decreases |a|
  {
    hide ReadWord, ReadPiece, EndsWord;
    var y := "\n" + [d];
    assert a + "\n" + [d] == a + y;
    if a == "\\" {
      LoneWord(d);
      assert a + y == "\\\n" + [d] && "" + [d] == [d];
    } else {
      DanglingStep(a);
      var piece, rest := ReadPiece(a).text, ReadPiece(a).rest;
      PieceExtends(a, y);
      WordReadsOn(rest, d);
      assert rest + y == rest + "\n" + [d];
      PieceThenWord(a + y, piece, rest + y);
      assert piece + (ReadWord(rest).text + [d]) == piece + ReadWord(rest).text + [d];
    }
  }

  lemma RedirectionReadsOn(a: string, d: char)
    requires a != "" && RedirectionDangles(a) && ReadRedirection(a).Some? && 'a' <= d <= 'z'
    ensures ReadRedirection(a) == Some("")
    ensures ReadRedirection(a + "\n" + [d]).None? || ReadRedirection(a + "\n" + [d]) == Some("")
  {
    hide ReadWord, ReadOperator, SkipBlanks, Harmless, WordDangles;
    var y := "\n" + [d];
    assert a + "\n" + [d] == a + y;
    assert (a + y)[1..] == a[1..] + y;
    OperatorExtends(a[1..], [a[0]], y);
    var rest := ReadOperator(a[1..], [a[0]]).1;
    BlanksExtend(rest, y);
    var target := SkipBlanks(rest);
    assert target + y == target + "\n" + [d];
    WordReadsOn(target, d);
  }

  /** How many programs there are in what is left of a command that ends in a word. */
  lemma OneProgram(st: State)
    requires st.inWord
    ensures Split("", st).Some? && |Split("", st).value| == 1
  {
  }

  lemma LetterScanned(d: char, st: State)
    requires 'a' <= d <= 'z'
    ensures Scan([d], st) == Go([], "", State(st.word + [d], true, st.words))
  {
    assert [d][1..] == "";
  }

  lemma LoneBackslash(st: State)
    ensures Scan("\\", st) == Go([], "", State(st.word, true, st.words))
  {
    assert ReadPiece("\\") == Text("", "");
    assert st.word + "" == st.word;
  }

  lemma LineJoined(more: string, st: State)
    ensures Scan("\\\n" + more, st) == Go([], more, st)
  {
    assert ("\\\n" + more)[2..] == more;
  }

  /** With one letter on the next line, a dangling text runs no more programs than alone, or is refused. */
  lemma {:induction false} DanglesReadsOn(a: string, d: char, st: State)
    requires Dangles(a, st) && Split(a, st).Some? && 'a' <= d <= 'z'
    ensures var joined := Split(a + "\n" + [d], st);
      joined.Some? ==> |joined.value| <= |Split(a, st).value|
    decreases |a|
  {
    hide Scan, ReadRedirection, RedirectionDangles;
    var y := "\n" + [d];
    assert a + "\n" + [d] == a + y;
    if a == "\\" {
      LoneBackslash(st);
      OneProgram(State(st.word, true, st.words));
      JoinedNothing(Split("", State(st.word, true, st.words)));
      LineJoined([d], st);
      assert a + y == "\\\n" + [d];
      LetterScanned(d, st);
      SplitStep(a + y, st, [d], st);
      SplitStep([d], st, "", State(st.word + [d], true, st.words));
      OneProgram(State(st.word + [d], true, st.words));
    } else if StartsRedirection(a) && RedirectionDangles(a) {
      RedirectionEnds(a, d, st);
    } else {
      var t := Scan(a, st);
      ScanExtends(a, y, st);
      DanglesReadsOn(t.rest, d, t.state);
      assert t.rest + y == t.rest + "\n" + [d];
    }
  }

  lemma RedirectionEnds(a: string, d: char, st: State)
    requires a != "" && StartsRedirection(a) && RedirectionDangles(a) && Split(a, st).Some? && 'a' <= d <= 'z'
    ensures Split(a + "\n" + [d], st).None? || Split(a + "\n" + [d], st) == Split(a, st)
  {
    hide ReadRedirection, RedirectionDangles, Digits, ReadPiece, SkipComment, IsSuffix, EndSegment;
    RedirectionReadsOn(a, d);
    assert (a + "\n" + [d])[0] == a[0] && (|a| > 1 ==> (a + "\n" + [d])[1] == a[1]);
    ReadsAsRedirection(a, st);
    ReadsAsRedirection(a + "\n" + [d], st);
    hide Scan;
  }

  /** A redirection is read as one, if it is not refused. */
  lemma ReadsAsRedirection(s: string, st: State)
    requires s != "" && StartsRedirection(s)
    ensures Scan(s, st) == match ReadRedirection(s)
      case None => Stop
      case Some(rest) => Go([], rest, State("", false, EndWord(DropDescriptor(st))))
  {
    hide ReadRedirection, ReadPiece, SkipComment, IsSuffix, EndSegment, EndWord, DropDescriptor;
  }

  /**
    A first line composes with every next line exactly when scanning it does not end on a backslash
    that escapes nothing; otherwise the statement fails for each next line of one letter.
   */
  lemma SplitLinesExactly(a: string)
    requires SplitCommand(a).Some?
    ensures !Dangles(a, START) <==>
      forall b :: SplitCommand(a + "\n" + b) == Joined(SplitCommand(a).value, SplitCommand(b))
    ensures Dangles(a, START) ==> a[|a| - 1] == '\\'
    ensures Dangles(a, START) ==>
      forall d: char :: 'a' <= d <= 'z' ==>
        SplitCommand(a + "\n" + [d]) != Joined(SplitCommand(a).value, SplitCommand([d]))
  {
    if Dangles(a, START) {
      DanglesEnds(a, START);
      forall d: char | 'a' <= d <= 'z'
        ensures SplitCommand(a + "\n" + [d]) != Joined(SplitCommand(a).value, SplitCommand([d]))
      {
        DanglesReadsOn(a, d, START);
        LetterScanned(d, START);
        SplitStep([d], START, "", State(START.word + [d], true, START.words));
        OneProgram(State(START.word + [d], true, START.words));
        hide Split, Dangles, Scan;
      }
      assert SplitCommand(a + "\n" + ['a']) != Joined(SplitCommand(a).value, SplitCommand(['a']));
    } else {
      forall b
        ensures SplitCommand(a + "\n" + b) == Joined(SplitCommand(a).value, SplitCommand(b))
      {
        SplitLines(a, b);
      }
    }
  }

  lemma SplitStep(s: string, st: State, rest: string, next: State)
    requires s != "" && Scan(s, st) == Go([], rest, next)
    ensures Split(s, st) == Split(rest, next)
  {
    JoinedNothing(Split(rest, next));
  }

  lemma LastWord(w: string)
    ensures Split("", State(w, true, [])) == Some([[w]])
  {
    assert EndWord(State(w, true, [])) == [w];
  }

  lemma PlainRead(c: char, more: string, word: string)
    requires 'a' <= c <= 'z'
    ensures Scan([c] + more, State(word, word != "", [])) == Go([], more, State(word + [c], true, []))
  {
    assert ([c] + more)[1..] == more;
  }

  /** A backslash at the end of a line joins it to the next, so such a line does not split on its own. */
  lemma BackslashJoins(c: char, d: char)
    requires 'a' <= c <= 'z' && 'a' <= d <= 'z'
    ensures SplitCommand([c] + "\\") == Some([[[c]]]) && SplitCommand([d]) == Some([[[d]]])
    ensures SplitCommand([c] + "\\" + "\n" + [d]) == Some([[[c, d]]])
  {
    hide Scan, Split, ReadPiece, EndSegment;
    assert "" + [c] == [c] && "" + [d] == [d] && [d] + "" == [d] && [c] + [d] == [c, d];
    PlainRead(c, "\\", "");
    SplitStep([c] + "\\", START, "\\", State([c], true, []));
    LoneBackslash(State([c], true, []));
    SplitStep("\\", State([c], true, []), "", State([c], true, []));
    LastWord([c]);
    PlainRead(d, "", "");
    SplitStep([d], START, "", State([d], true, []));
    LastWord([d]);
    var line := "\\\n" + [d];
    assert [c] + "\\" + "\n" + [d] == [c] + line;
    PlainRead(c, line, "");
    SplitStep([c] + line, START, line, State([c], true, []));
    LineJoined([d], State([c], true, []));
    SplitStep(line, State([c], true, []), [d], State([c], true, []));
    PlainRead(d, "", [c]);
    SplitStep([d], State([c], true, []), "", State([c, d], true, []));
    LastWord([c, d]);
  }

  /** Two lines are an inspection exactly when each that runs anything is one, and some line does. */
  lemma InspectionLines(a: string, b: string, test: Words -> bool)
    requires !Dangles(a, START) && SplitCommand(a).Some?
    ensures IsInspection(a + "\n" + b, test) <==>
      && SplitCommand(b).Some? && (SplitCommand(a).value != [] || SplitCommand(b).value != [])
      && (SplitCommand(a).value == [] || IsInspection(a, test))
      && (SplitCommand(b).value == [] || IsInspection(b, test))
    ensures SplitCommand(a).value != [] && (SplitCommand(b).Some? ==> SplitCommand(b).value != []) ==>
      (IsInspection(a + "\n" + b, test) <==> IsInspection(a, test) && IsInspection(b, test))
  {
    hide SplitCommand;
    SplitLines(a, b);
    if SplitCommand(b).Some? {
      var x, y := SplitCommand(a).value, SplitCommand(b).value;
      assert forall i :: 0 <= i < |x| ==> (x + y)[i] == x[i];
      assert forall i :: 0 <= i < |y| ==> (x + y)[|x| + i] == y[i];
    }
  }

  // ---- quoting ----

  predicate NoQuote(w: string) {
    forall i :: 0 <= i < |w| ==> w[i] != '\''
  }

  predicate Quotable(segment: Words) {
    segment != [] && forall i :: 0 <= i < |segment| ==> NoQuote(segment[i])
  }

  function PrintWords(words: Words): string {
    if words == [] then ""
    else "'" + words[0] + "'" + if |words| == 1 then "" else " " + PrintWords(words[1..])
  }

  const SEPARATORS: set<string> := {"\n", ";", "&&", "||", "|", "|&", "&"}

  function PrintSegments(segments: seq<Words>, separators: seq<string>): string
    requires segments != [] ==> |separators| == |segments| - 1
  {
    if segments == [] then ""
    else
      var more := if |segments| == 1 then "" else separators[0] + PrintSegments(segments[1..], separators[1..]);
      PrintWords(segments[0]) + more
  }

  lemma {:induction false} SingleUnquotes(w: string, rest: string)
    requires NoQuote(w)
    ensures ReadSingle(w + "'" + rest) == Text(w, rest)
  {
    if w == "" {
      assert (w + "'" + rest)[1..] == rest;
    } else {
      assert (w + "'" + rest)[1..] == w[1..] + "'" + rest;
      SingleUnquotes(w[1..], rest);
    }
  }

  lemma ScanQuoted(w: string, rest: string, words: Words)
    requires NoQuote(w)
    ensures Scan("'" + w + "'" + rest, State("", false, words)) == Go([], rest, State(w, true, words))
  {
    var s := "'" + w + "'" + rest;
    assert s[1..] == w + "'" + rest;
    SingleUnquotes(w, rest);
    assert ReadPiece(s) == Text(w, rest);
    assert "" + w == w;
  }

  lemma WordUnquotes(w: string, rest: string, words: Words)
    requires NoQuote(w)
    ensures Split("'" + w + "'" + rest, State("", false, words)) == Split(rest, State(w, true, words))
  {
    hide Scan;
    ScanQuoted(w, rest, words);
    assert "'" + w + "'" + rest != "";
    JoinedNothing(Split(rest, State(w, true, words)));
  }

  lemma BlankEnds(more: string, w: string, words: Words)
    ensures Split(" " + more, State(w, true, words)) == Split(more, State("", false, words + [w]))
  {
    assert (" " + more)[1..] == more;
    JoinedNothing(Split(more, State("", false, words + [w])));
  }

  lemma {:induction false} WordsUnquote(ws: Words, rest: string, words: Words)
    requires Quotable(ws)
    ensures Split(PrintWords(ws) + rest, State("", false, words)) ==
      Split(rest, State(ws[|ws| - 1], true, words + ws[..|ws| - 1]))
  {
    hide Split;
    if |ws| == 1 {
      assert PrintWords(ws) + rest == "'" + ws[0] + "'" + rest;
      assert words + ws[..0] == words;
      WordUnquotes(ws[0], rest, words);
    } else {
      var more := PrintWords(ws[1..]) + rest;
      assert PrintWords(ws) + rest == "'" + ws[0] + "'" + (" " + more);
      WordUnquotes(ws[0], " " + more, words);
      BlankEnds(more, ws[0], words);
      WordsUnquote(ws[1..], rest, words + [ws[0]]);
      assert words + [ws[0]] + ws[1..][..|ws| - 2] == words + ws[..|ws| - 1];
    }
  }

  lemma ScanSeparator(sep: string, more: string, st: State)
    requires sep in SEPARATORS && CharAt(more, 0, '\'')
    ensures Scan(sep + more, st) == Go(EndSegment(st), more, START)
  {
    hide ReadPiece, ReadRedirection, EndSegment;
    var s := sep + more;
    assert s[|sep|] == '\'';
    assert Separator(s) == |sep|;
    assert s[|sep|..] == more;
  }

  lemma SeparatorSplits(sep: string, more: string, st: State)
    requires sep in SEPARATORS && CharAt(more, 0, '\'')
    ensures Split(sep + more, st) == Joined(EndSegment(st), Split(more, START))
  {
    hide Scan;
    ScanSeparator(sep, more, st);
    assert sep + more != "";
  }

  lemma PrintStart(segments: seq<Words>, separators: seq<string>)
    requires segments != [] && |separators| == |segments| - 1 && Quotable(segments[0])
    ensures CharAt(PrintSegments(segments, separators), 0, '\'')
  {
  }

  /** Quoting every word of any programs, however they are separated, gives back exactly those programs. */
  lemma {:induction false} QuotingRoundTrip(segments: seq<Words>, separators: seq<string>)
    requires segments != [] ==> |separators| == |segments| - 1
    requires forall i :: 0 <= i < |segments| ==> Quotable(segments[i])
    requires forall i :: 0 <= i < |separators| ==> separators[i] in SEPARATORS
    ensures SplitCommand(PrintSegments(segments, separators)) == Some(segments)
  {
    hide Scan;
    if segments != [] {
      var ws := segments[0];
      var st := State(ws[|ws| - 1], true, [] + ws[..|ws| - 1]);
      assert [] + ws[..|ws| - 1] + [ws[|ws| - 1]] == ws;
      assert EndSegment(st) == [ws];
      if |segments| == 1 {
        assert PrintSegments(segments, separators) == PrintWords(ws) + "";
        WordsUnquote(ws, "", []);
        assert segments == [ws];
      } else {
        var more := PrintSegments(segments[1..], separators[1..]);
        WordsUnquote(ws, separators[0] + more, []);
        PrintStart(segments[1..], separators[1..]);
        SeparatorSplits(separators[0], more, st);
        QuotingRoundTrip(segments[1..], separators[1..]);
        assert segments == [ws] + segments[1..];
      }
    }
  }
}
