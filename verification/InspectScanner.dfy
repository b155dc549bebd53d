/** The scanner as it runs: one index that every reader advances. */
module InspectScanner {
  import opened Prelude
  import opened Inspect

  function PrependText(done: string, r: Read): Read {
    match r case Refused => Refused case Text(text, rest) => Text(done + text, rest)
  }

  lemma PrependTextTwice(a: string, b: string, r: Read)
    ensures PrependText(a, PrependText(b, r)) == PrependText(a + b, r)
  {
    if r.Text? {
      assert a + (b + r.text) == a + b + r.text;
    }
  }

  lemma PrependTextEnd(done: string, rest: string)
    ensures PrependText(done, Text("", rest)) == Text(done, rest) && PrependText(done, Refused) == Refused
  {
    assert done + "" == done;
  }

  lemma PrependTextNothing(r: Read)
    ensures PrependText("", r) == r
  {
    if r.Text? {
      assert "" + r.text == r.text;
    }
  }

  /** The first index from `from` on that holds a single quote; -1 when there is none. */
  function IndexOfQuote(s: string, from: nat): (r: int)
    ensures r == -1 || from <= r < |s|
    decreases |s| - from
  {
    if from >= |s| then -1 else if s[from] == '\'' then from else IndexOfQuote(s, from + 1)
  }

  lemma {:induction false} SingleByIndex(s: string, from: nat)
    requires from <= |s|
    ensures var end := IndexOfQuote(s, from);
      ReadSingle(s[from..]) == if end < 0 then Refused else Text(s[from..end], s[end + 1..])
    decreases |s| - from
  {
    if from < |s| && s[from] != '\'' {
      SingleByIndex(s, from + 1);
      assert s[from..][1..] == s[from + 1..];
      var end := IndexOfQuote(s, from);
      if end >= 0 {
        assert [s[from]] + s[from + 1..end] == s[from..end];
      }
    }
  }

  /** What stands at an index, seen from the suffix that starts there. */
  lemma SuffixAt(s: string, i: nat)
    requires i < |s|
    ensures s[i..][0] == s[i] && s[i..][1..] == s[i + 1..]
    ensures forall c :: CharAt(s[i..], 1, c) <==> CharAt(s, i + 1, c)
    ensures i + 1 < |s| ==> s[i..][1] == s[i + 1] && s[i..][2..] == s[i + 2..]
  {
  }

  lemma DoubleAt(s: string, i: nat)
    requires i < |s| && s[i] != '"' && s[i] != '`' && !(s[i] == '$' && CharAt(s, i + 1, '('))
    ensures var k := if s[i] == '\\' && i + 1 < |s| then i + 1 else i;
      ReadDouble(s[i..]) == PrependText([s[k]], ReadDouble(s[k + 1..]))
  {
    SuffixAt(s, i);
  }

  lemma DoubleEnd(s: string, i: nat)
    requires i <= |s|
    requires i == |s| || s[i] == '"' || s[i] == '`' || (s[i] == '$' && CharAt(s, i + 1, '('))
    ensures ReadDouble(s[i..]) == if i < |s| && s[i] == '"' then Text("", s[i + 1..]) else Refused
  {
    if i < |s| {
      SuffixAt(s, i);
    }
  }

  lemma WordStep(t: string)
    requires t != "" && !EndsWord(t[0]) && ReadPiece(t).Text?
    ensures ReadWord(t) == PrependText(ReadPiece(t).text, ReadWord(ReadPiece(t).rest))
  {
  }

  lemma OperatorStep(s: string, i: nat, op: string)
    requires i <= |s|
    ensures ReadOperator(s[i..], op) ==
      if i < |s| && s[i] in {'<', '>', '&', '|'} && |op| < 3 then ReadOperator(s[i + 1..], op + [s[i]])
      else (op, s[i..])
  {
    if i < |s| {
      assert s[i..][1..] == s[i + 1..];
    }
  }

  lemma BlanksStep(s: string, i: nat)
    requires i <= |s|
    ensures SkipBlanks(s[i..]) == if i < |s| && s[i] in {' ', '\t'} then SkipBlanks(s[i + 1..]) else s[i..]
  {
    if i < |s| {
      assert s[i..][1..] == s[i + 1..];
    }
  }

  lemma CommentStep(s: string, i: nat)
    requires i <= |s|
    ensures SkipComment(s[i..]) == if i < |s| && s[i] != '\n' then SkipComment(s[i + 1..]) else s[i..]
  {
    if i < |s| {
      assert s[i..][1..] == s[i + 1..];
    }
  }

  /** `Separator`, read off at an index. */
  function SeparatorAt(s: string, i: nat): (n: nat)
    requires i < |s|
    ensures n == Separator(s[i..])
  {
    SuffixAt(s, i);
    if s[i] == '\n' || s[i] == ';' then 1
    else if s[i] == '|' then if CharAt(s, i + 1, '|') || CharAt(s, i + 1, '&') then 2 else 1
    else if s[i] == '&' && CharAt(s, i + 1, '&') then 2
    else if s[i] == '&' && !CharAt(s, i + 1, '>') then 1
    else 0
  }

  class Scanner {
    const s: string
    var i: nat

    constructor (command: string)
      ensures s == command && i == 0
    {
      s, i := command, 0;
    }

    ghost function Rest(): string
      reads this
    {
      if i <= |s| then s[i..] else ""
    }

    method Double() returns (text: Option<string>)
      requires i < |s| && s[i] == '"'
      modifies this`i
      ensures match ReadDouble(old(Rest())[1..])
              case Refused => text.None?
              case Text(t, rest) => text == Some(t) && Rest() == rest
    {
      hide ReadDouble, PrependText, IsSuffix;
      SuffixAt(s, i);
      i := i + 1;
      ghost var start := Rest();
      assert start == old(Rest())[1..];
      var done := "";
      PrependTextNothing(ReadDouble(start));
      while i < |s| && s[i] != '"'
        invariant i <= |s|
        invariant ReadDouble(start) == PrependText(done, ReadDouble(s[i..]))
        decreases |s| - i
      {
        if s[i] == '`' || (s[i] == '$' && CharAt(s, i + 1, '(')) {
          DoubleEnd(s, i);
          PrependTextEnd(done, "");
          return None;
        }
        DoubleAt(s, i);
        if s[i] == '\\' && i + 1 < |s| {
          i := i + 1;
        }
        PrependTextTwice(done, [s[i]], ReadDouble(s[i + 1..]));
        done := done + [s[i]];
        i := i + 1;
      }
      DoubleEnd(s, i);
      PrependTextEnd(done, if i < |s| then s[i + 1..] else "");
      if i >= |s| {
        return None;
      }
      i := i + 1;
      assert ReadDouble(start) == Text(done, Rest());
      text := Some(done);
    }

    method Piece() returns (text: Option<string>)
      requires i < |s|
      modifies this`i
      ensures match ReadPiece(old(Rest()))
              case Refused => text.None?
              case Text(t, rest) => text == Some(t) && Rest() == rest
    {
      hide ReadDouble, ReadSingle;
      SuffixAt(s, i);
      var c := s[i];
      if c == '`' {
        return None;
      }
      if c == '$' && CharAt(s, i + 1, '(') {
        return None;
      }
      if c == '\\' {
        i := i + 2;
        return Some(if i - 1 < |s| && s[i - 1] != '\n' then [s[i - 1]] else "");
      }
      if c == '\'' {
        SingleByIndex(s, i + 1);
        var end := IndexOfQuote(s, i + 1);
        if end < 0 {
          return None;
        }
        text := Some(s[i + 1..end]);
        i := end + 1;
        return;
      }
      if c == '"' {
        text := Double();
        return;
      }
      i := i + 1;
      text := Some([c]);
    }

    method Word() returns (text: Option<string>)
      modifies this`i
      ensures match ReadWord(old(Rest()))
              case Refused => text.None?
              case Text(t, rest) => text == Some(t) && Rest() == rest
    {
      hide ReadPiece;
      ghost var start := Rest();
      var out := "";
      PrependTextNothing(ReadWord(start));
      while i < |s|
        invariant ReadWord(start) == PrependText(out, ReadWord(Rest()))
        decreases |Rest()|
      {
        assert Rest()[0] == s[i];
        if EndsWord(s[i]) {
          assert out + "" == out;
          return Some(out);
        }
        ghost var before := Rest();
        var piece := Piece();
        if piece.None? {
          return None;
        }
        WordStep(before);
        PrependTextTwice(out, piece.value, ReadWord(Rest()));
        out := out + piece.value;
      }
      assert Rest() == "" && out + "" == out;
      text := Some(out);
    }

    /** The operator, up to three characters of it. */
    method Operator() returns (op: string)
      requires i < |s|
      modifies this`i
      ensures i <= |s| && (op, Rest()) == ReadOperator(old(Rest())[1..], [old(Rest())[0]])
    {
      hide ReadOperator, IsSuffix;
      SuffixAt(s, i);
      op := [s[i]];
      i := i + 1;
      ghost var start := s[i..];
      while i < |s| && s[i] in {'<', '>', '&', '|'} && |op| < 3
        invariant i <= |s|
        invariant ReadOperator(start, [old(Rest())[0]]) == ReadOperator(s[i..], op)
      {
        OperatorStep(s, i, op);
        op := op + [s[i]];
        i := i + 1;
      }
      OperatorStep(s, i, op);
    }

    method Blanks()
      requires i <= |s|
      modifies this`i
      ensures i <= |s| && Rest() == SkipBlanks(old(Rest()))
    {
      hide SkipBlanks, IsSuffix;
      ghost var start := s[i..];
      while i < |s| && s[i] in {' ', '\t'}
        invariant i <= |s|
        invariant SkipBlanks(start) == SkipBlanks(s[i..])
      {
        BlanksStep(s, i);
        i := i + 1;
      }
      BlanksStep(s, i);
    }

    method Redirection() returns (harmless: bool)
      requires i < |s|
      modifies this`i
      ensures harmless <==> ReadRedirection(old(Rest())).Some?
      ensures harmless ==> Rest() == ReadRedirection(old(Rest())).value
    {
      hide ReadOperator, SkipBlanks, ReadWord, Harmless;
      var op := Operator();
      if CharAt(s, i, '(') {
        return false;
      }
      assert forall c :: CharAt(Rest(), 0, c) <==> CharAt(s, i, c);
      Blanks();
      var target := Word();
      harmless := target.Some? && Harmless(op, target.value);
    }

    method Comment()
      requires i < |s|
      modifies this`i
      ensures Rest() == SkipComment(old(Rest()))
    {
      hide SkipComment, IsSuffix;
      ghost var start := s[i..];
      while i < |s| && s[i] != '\n'
        invariant i <= |s|
        invariant SkipComment(start) == SkipComment(s[i..])
      {
        CommentStep(s, i);
        i := i + 1;
      }
      CommentStep(s, i);
    }
  }

  /** The main loop: every turn completes at most one program. */
  method RunSplit(command: string) returns (segments: Option<seq<Words>>)
    ensures segments == SplitCommand(command)
  {
    hide Scan, ReadRedirection, ReadPiece;
    var sc := new Scanner(command);
    var done: seq<Words> := [];
    var words: Words := [];
    var word := "";
    var inWord := false;
    JoinedNothing(SplitCommand(command));
    assert sc.Rest() == command;
    while sc.i < |command|
      invariant fresh(sc) && sc.s == command
      invariant SplitCommand(command) == Joined(done, Split(sc.Rest(), State(word, inWord, words)))
      decreases |sc.Rest()|
    {
      ghost var st := State(word, inWord, words);
      var step: Option<seq<Words>>;
      step, word, inWord, words := Turned(sc, word, inWord, words);
      if step.None? {
        return None;
      }
      JoinedTwice(done, step.value, Split(sc.Rest(), State(word, inWord, words)));
      done := done + step.value;
    }
    segments := Some(done + EndSegment(State(word, inWord, words)));
  }

  /** One turn of the main loop: the programs it completes, or none when the command is refused. */
  method Turned(sc: Scanner, word: string, inWord: bool, words: Words)
    returns (done: Option<seq<Words>>, word': string, inWord': bool, words': Words)
    requires sc.i < |sc.s|
    modifies sc`i
    ensures match Scan(old(sc.Rest()), State(word, inWord, words))
            case Stop => done.None?
            case Go(d, rest, st) => done == Some(d) && sc.Rest() == rest && State(word', inWord', words') == st
  {
    hide ReadRedirection, ReadPiece, Separator, EndSegment, EndWord, DropDescriptor, SkipComment, SeparatorAt, IsSuffix;
    var s, i := sc.s, sc.i;
    var c := s[i];
    done, word', inWord', words' := Some([]), word, inWord, words;
    var st := State(word, inWord, words);
    var separator := SeparatorAt(s, i);
    SuffixAt(s, i);
    if c == ' ' || c == '\t' {
      word', inWord', words' := "", false, EndWord(st);
      sc.i := i + 1;
    } else if c == '\\' && CharAt(s, i + 1, '\n') {
      sc.i := i + 2;
    } else if separator > 0 {
      done, word', inWord', words' := Some(EndSegment(st)), "", false, [];
      sc.i := i + separator;
      assert s[i..][separator..] == s[i + separator..];
    } else if c == '#' && !inWord {
      CommentStep(s, i);
      sc.Comment();
    } else if c == '(' || c == ')' {
      done := None;
    } else if c == '>' || c == '<' || (c == '&' && CharAt(s, i + 1, '>')) {
      word', inWord', words' := "", false, EndWord(DropDescriptor(st));
      var harmless := sc.Redirection();
      if !harmless {
        done := None;
      }
    } else {
      var piece := sc.Piece();
      if piece.None? {
        done := None;
      } else {
        word', inWord' := word + piece.value, true;
      }
    }
  }
}
