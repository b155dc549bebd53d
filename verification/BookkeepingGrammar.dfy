/**
  The tiny programs that count as bookkeeping: literal todo calls, and loops over literal ids around
  one such call. The abstract syntax keeps every spelling choice, so printing it gives back the tokens.
 */
module BookkeepingGrammar {
  import opened Prelude

  datatype Quote = Single | Double

  /** What the lexer makes of the code; numbers have no leading zero, so their value is their spelling. */
  datatype Token = Word(name: string) | Number(value: nat) | Quoted(quote: Quote, body: string) | Punct(c: char)

  const MAX_SAFE_INTEGER: nat := 9007199254740991
  const MAX_LOOP: nat := 128
  const MAX_CALLS: nat := 256

  datatype Action = List | Get | Delete

  function ActionName(a: Action): string {
    match a case List => "list" case Get => "get" case Delete => "delete"
  }

  datatype KeyStyle = Bare | InQuotes(quote: Quote)

  datatype Id = Literal(n: nat) | LoopVariable

  /** `action: "get"`, `id: 7`, `id: id` or the shorthand `id`; keys may be quoted, except in the shorthand. */
  datatype Property = ActionIs(key: KeyStyle, quote: Quote, action: Action) | IdIs(key: KeyStyle, id: Id) | IdShorthand

  /** `await tools.todo({...})`, possibly displayed as `text(...)`. */
  datatype Call = Call(display: bool, properties: seq<Property>)

  datatype Block = NoBlock | Braces(semicolon: bool)

  datatype Statement = Empty | Plain(call: Call) | For(ids: seq<nat>, body: Call, block: Block)

  type Program = seq<Statement>

  // ---- which programs are meant ----

  predicate SafeId(n: nat) {
    1 <= n <= MAX_SAFE_INTEGER
  }

  function KeyOf(p: Property): string {
    if p.ActionIs? then "action" else "id"
  }

  predicate GoodProperty(p: Property, loop: bool) {
    match p
    case ActionIs(_, _, _) => true
    case IdIs(_, Literal(n)) => SafeId(n)
    case IdIs(_, LoopVariable) => loop
    case IdShorthand => loop
  }

  predicate GoodProperties(ps: seq<Property>, loop: bool) {
    && ps != []
    && (forall i :: 0 <= i < |ps| ==> GoodProperty(ps[i], loop))
    && (forall i, j :: 0 <= i < j < |ps| ==> KeyOf(ps[i]) != KeyOf(ps[j]))
  }

  function ActionOf(ps: seq<Property>): Option<Action> {
    if ps == [] then None else if ps[0].ActionIs? then Some(ps[0].action) else ActionOf(ps[1..])
  }

  function IdOf(ps: seq<Property>): Option<Id> {
    if ps == [] then None
    else if ps[0].IdIs? then Some(ps[0].id)
    else if ps[0].IdShorthand? then Some(LoopVariable)
    else IdOf(ps[1..])
  }

  /** A list call names no id, a get or delete call does. */
  predicate Complete(ps: seq<Property>) {
    ActionOf(ps).Some? && (ActionOf(ps) == Some(List) <==> IdOf(ps).None?)
  }

  predicate GoodCall(c: Call, loop: bool) {
    && GoodProperties(c.properties, loop)
    && Complete(c.properties)
  }

  predicate GoodStatement(s: Statement) {
    match s
    case Empty => true
    case Plain(c) => GoodCall(c, false)
    case For(ids, body, _) =>
      1 <= |ids| <= MAX_LOOP && (forall i :: 0 <= i < |ids| ==> SafeId(ids[i])) && GoodCall(body, true)
  }

  predicate GoodProgram(p: Program) {
    forall i :: 0 <= i < |p| ==> GoodStatement(p[i])
  }

  // ---- running ----

  /** A call of the todo tool, as it is made. */
  datatype Made = Made(action: Action, id: Option<nat>)

  function RunCall(c: Call, variable: nat): Made
    requires ActionOf(c.properties).Some?
  {
    var id := IdOf(c.properties);
    Made(
      ActionOf(c.properties).value,
      if id.None? then None else Some(if id.value.Literal? then id.value.n else variable))
  }

  function RunLoop(ids: seq<nat>, c: Call): (r: seq<Made>)
    requires ActionOf(c.properties).Some?
    ensures |r| == |ids|
  {
    seq(|ids|, i requires 0 <= i < |ids| => RunCall(c, ids[i]))
  }

  function RunStatement(s: Statement): seq<Made>
    requires GoodStatement(s)
  {
    match s
    case Empty => []
    case Plain(c) => [RunCall(c, 0)]
    case For(ids, body, _) => RunLoop(ids, body)
  }

  /** The calls a program makes, in order. */
  function Run(p: Program): seq<Made>
    requires GoodProgram(p)
  {
    if p == [] then [] else RunStatement(p[0]) + Run(p[1..])
  }

  datatype Kind = Coordination | ReadOnly

  predicate Deletes(made: seq<Made>) {
    exists i :: 0 <= i < |made| && made[i].action == Delete
  }

  // ---- printing ----

  function PrintKey(style: KeyStyle, name: string): Token {
    if style.Bare? then Word(name) else Quoted(style.quote, name)
  }

  function PrintId(id: Id): Token {
    if id.Literal? then Number(id.n) else Word("id")
  }

  function PrintProperty(p: Property): seq<Token> {
    match p
    case ActionIs(key, quote, action) => [PrintKey(key, "action"), Punct(':'), Quoted(quote, ActionName(action))]
    case IdIs(key, id) => [PrintKey(key, "id"), Punct(':'), PrintId(id)]
    case IdShorthand => [Word("id")]
  }

  function PrintProperties(ps: seq<Property>): seq<Token> {
    if ps == [] then []
    else PrintProperty(ps[0]) + if |ps| == 1 then [] else [Punct(',')] + PrintProperties(ps[1..])
  }

  const OPENING := [Word("await"), Word("tools"), Punct('.'), Word("todo"), Punct('('), Punct('{')]
  const CLOSING := [Punct('}'), Punct(')')]

  function PrintInner(ps: seq<Property>): seq<Token> {
    OPENING + (PrintProperties(ps) + CLOSING)
  }

  function PrintCall(c: Call): seq<Token> {
    if c.display then [Word("text"), Punct('(')] + (PrintInner(c.properties) + [Punct(')')])
    else PrintInner(c.properties)
  }

  function PrintIds(ids: seq<nat>): seq<Token> {
    if ids == [] then [] else [Number(ids[0])] + if |ids| == 1 then [] else [Punct(',')] + PrintIds(ids[1..])
  }

  const LOOP_HEAD := [Word("for"), Punct('('), Word("const"), Word("id"), Word("of"), Punct('[')]
  const LOOP_NECK := [Punct(']'), Punct(')')]

  function PrintBody(c: Call, block: Block): seq<Token> {
    match block
    case NoBlock => PrintCall(c)
    case Braces(semicolon) =>
      [Punct('{')] + (PrintCall(c) + (if semicolon then [Punct(';'), Punct('}')] else [Punct('}')]))
  }

  function PrintHeader(ids: seq<nat>): seq<Token> {
    LOOP_HEAD + (PrintIds(ids) + LOOP_NECK)
  }

  function PrintStatement(s: Statement): seq<Token> {
    match s
    case Empty => [Punct(';')]
    case Plain(c) => PrintCall(c)
    case For(ids, body, block) => PrintHeader(ids) + PrintBody(body, block)
  }

  function Print(p: Program): seq<Token> {
    if p == [] then [] else PrintStatement(p[0]) + Print(p[1..])
  }

  // ---- parsing ----

  datatype Parsed<T> = Fail | Ok(value: T, rest: seq<Token>)

  predicate StartsWith(ts: seq<Token>, t: Token) {
    ts != [] && ts[0] == t
  }

  function Unquoted(t: Token): string {
    match t case Word(name) => name case Quoted(_, body) => body case _ => ""
  }

  function StyleOf(t: Token): KeyStyle {
    if t.Quoted? then InQuotes(t.quote) else Bare
  }

  function ActionNamed(name: string): Option<Action> {
    if name == "list" then Some(List) else if name == "get" then Some(Get) else if name == "delete" then Some(Delete)
    else None
  }

  function ParseProperty(ts: seq<Token>, loop: bool): (r: Parsed<Property>)
    ensures r.Ok? ==> |r.rest| < |ts|
  {
    if ts == [] then Fail
    else if Unquoted(ts[0]) == "action" then
      if |ts| >= 3 && ts[1] == Punct(':') && ts[2].Quoted? && ActionNamed(ts[2].body).Some? then
        Ok(ActionIs(StyleOf(ts[0]), ts[2].quote, ActionNamed(ts[2].body).value), ts[3..])
      else Fail
    else if Unquoted(ts[0]) == "id" then
      if |ts| >= 2 && ts[1] == Punct(':') then
        if |ts| >= 3 && ts[2].Number? && SafeId(ts[2].value)
        then Ok(IdIs(StyleOf(ts[0]), Literal(ts[2].value)), ts[3..])
        else if loop && |ts| >= 3 && ts[2] == Word("id") then Ok(IdIs(StyleOf(ts[0]), LoopVariable), ts[3..])
        else Fail
      else if loop && ts[0] == Word("id") then Ok(IdShorthand, ts[1..])
      else Fail
    else Fail
  }

  function ParseProperties(ts: seq<Token>, loop: bool, keys: set<string>): (r: Parsed<seq<Property>>)
    ensures r.Ok? ==> |r.rest| < |ts|
    decreases |ts|
  {
    match ParseProperty(ts, loop)
    case Fail => Fail
    case Ok(p, rest) =>
      if KeyOf(p) in keys then Fail
      else if StartsWith(rest, Punct(',')) then
        match ParseProperties(rest[1..], loop, keys + {KeyOf(p)})
        case Fail => Fail
        case Ok(ps, after) => Ok([p] + ps, after)
      else Ok([p], rest)
  }

  /** A fixed run of tokens, and what follows it. */
  function Expect(parts: seq<Token>, ts: seq<Token>): (r: Option<seq<Token>>)
    ensures r.Some? ==> ts == parts + r.value
  {
    if parts <= ts then Some(ts[|parts|..]) else None
  }

  function ParseInner(ts: seq<Token>, loop: bool): (r: Parsed<seq<Property>>)
    ensures r.Ok? ==> |r.rest| < |ts|
  {
    match Expect(OPENING, ts)
    case None => Fail
    case Some(ts1) =>
      match ParseProperties(ts1, loop, {})
      case Fail => Fail
      case Ok(ps, ts2) =>
        match Expect(CLOSING, ts2)
        case None => Fail
        case Some(rest) => Ok(ps, rest)
  }

  function ParseCall(ts: seq<Token>, loop: bool): (r: Parsed<Call>)
    ensures r.Ok? ==> |r.rest| < |ts|
  {
    if StartsWith(ts, Word("text")) then
      match Expect([Word("text"), Punct('(')], ts)
      case None => Fail
      case Some(ts1) =>
        match ParseInner(ts1, loop)
        case Fail => Fail
        case Ok(ps, ts2) => if StartsWith(ts2, Punct(')')) && Complete(ps) then Ok(Call(true, ps), ts2[1..]) else Fail
    else
      match ParseInner(ts, loop)
      case Fail => Fail
      case Ok(ps, rest) => if Complete(ps) then Ok(Call(false, ps), rest) else Fail
  }

  function ParseIds(ts: seq<Token>, room: nat): (r: Parsed<seq<nat>>)
    ensures r.Ok? ==> |r.rest| < |ts|
    decreases room
  {
    if ts == [] || !ts[0].Number? || !SafeId(ts[0].value) || room == 0 then Fail
    else if StartsWith(ts[1..], Punct(',')) then
      match ParseIds(ts[2..], room - 1)
      case Fail => Fail
      case Ok(ids, rest) => Ok([ts[0].value] + ids, rest)
    else Ok([ts[0].value], ts[1..])
  }

  function ParseBody(ts: seq<Token>): (r: Parsed<(Call, Block)>)
    ensures r.Ok? ==> |r.rest| < |ts|
  {
    var braces := StartsWith(ts, Punct('{'));
    match ParseCall(if braces then ts[1..] else ts, true)
    case Fail => Fail
    case Ok(c, rest) =>
      if !braces then Ok((c, NoBlock), rest)
      else
        var semicolon := StartsWith(rest, Punct(';'));
        var after := if semicolon then rest[1..] else rest;
        if StartsWith(after, Punct('}')) then Ok((c, Braces(semicolon)), after[1..]) else Fail
  }

  function ParseHeader(ts: seq<Token>): (r: Parsed<seq<nat>>)
    ensures r.Ok? ==> |r.rest| < |ts|
  {
    match Expect(LOOP_HEAD, ts)
    case None => Fail
    case Some(ts1) =>
      match ParseIds(ts1, MAX_LOOP)
      case Fail => Fail
      case Ok(ids, ts2) =>
        match Expect(LOOP_NECK, ts2)
        case None => Fail
        case Some(rest) => Ok(ids, rest)
  }

  function ParseStatement(ts: seq<Token>): (r: Parsed<Statement>)
    ensures r.Ok? ==> |r.rest| < |ts|
  {
    if StartsWith(ts, Punct(';')) then Ok(Empty, ts[1..])
    else if StartsWith(ts, Word("for")) then
      match ParseHeader(ts)
      case Fail => Fail
      case Ok(ids, ts1) =>
        match ParseBody(ts1)
        case Fail => Fail
        case Ok(body, rest) => Ok(For(ids, body.0, body.1), rest)
    else
      match ParseCall(ts, false)
      case Fail => Fail
      case Ok(c, rest) => Ok(Plain(c), rest)
  }

  function ParseProgram(ts: seq<Token>): Option<Program>
    decreases |ts|
  {
    if ts == [] then Some([])
    else
      match ParseStatement(ts)
      case Fail => None
      case Ok(s, rest) =>
        var p := ParseProgram(rest);
        if p.None? then None else Some([s] + p.value)
  }

  // ---- parsing undoes printing ----

  lemma PropertyRoundTrip(p: Property, loop: bool, rest: seq<Token>)
    requires GoodProperty(p, loop) && (p.IdShorthand? ==> !StartsWith(rest, Punct(':')))
    ensures ParseProperty(PrintProperty(p) + rest, loop) == Ok(p, rest)
  {
    var ts := PrintProperty(p) + rest;
    if p.IdShorthand? {
      assert ts[1..] == rest;
    } else {
      assert ts[3..] == rest;
    }
  }

  lemma ExpectAppend(parts: seq<Token>, rest: seq<Token>)
    ensures Expect(parts, parts + rest) == Some(rest)
  {
  }

  lemma Regroup(a: seq<Token>, b: seq<Token>, c: seq<Token>)
    ensures (a + b) + c == a + (b + c)
  {
  }

  lemma {:induction false} PropertiesRoundTrip(ps: seq<Property>, loop: bool, keys: set<string>, rest: seq<Token>)
    requires GoodProperties(ps, loop) && forall i :: 0 <= i < |ps| ==> KeyOf(ps[i]) !in keys
    requires !StartsWith(rest, Punct(',')) && !StartsWith(rest, Punct(':'))
    ensures ParseProperties(PrintProperties(ps) + rest, loop, keys) == Ok(ps, rest)
  {
    assert ps == [ps[0]] + ps[1..];
    if |ps| == 1 {
      assert ps == [ps[0]] && PrintProperties(ps) == PrintProperty(ps[0]);
      PropertyRoundTrip(ps[0], loop, rest);
    } else {
      var more := [Punct(',')] + (PrintProperties(ps[1..]) + rest);
      assert PrintProperties(ps) + rest == PrintProperty(ps[0]) + more;
      PropertyRoundTrip(ps[0], loop, more);
      PropertiesRoundTrip(ps[1..], loop, keys + {KeyOf(ps[0])}, rest);
      assert more[1..] == PrintProperties(ps[1..]) + rest;
    }
  }

  lemma InnerRoundTrip(ps: seq<Property>, loop: bool, rest: seq<Token>)
    requires GoodProperties(ps, loop)
    ensures ParseInner(PrintInner(ps) + rest, loop) == Ok(ps, rest)
  {
    hide ParseProperties, PrintProperties;
    var tail := CLOSING + rest;
    Regroup(OPENING, PrintProperties(ps) + CLOSING, rest);
    Regroup(PrintProperties(ps), CLOSING, rest);
    ExpectAppend(OPENING, PrintProperties(ps) + tail);
    PropertiesRoundTrip(ps, loop, {}, tail);
    ExpectAppend(CLOSING, rest);
  }

  lemma CallRoundTrip(c: Call, loop: bool, rest: seq<Token>)
    requires GoodCall(c, loop)
    ensures ParseCall(PrintCall(c) + rest, loop) == Ok(c, rest)
  {
    hide ParseInner;
    var inner := PrintInner(c.properties);
    if c.display {
      var tail := [Punct(')')] + rest;
      Regroup([Word("text"), Punct('(')], inner + [Punct(')')], rest);
      Regroup(inner, [Punct(')')], rest);
      ExpectAppend([Word("text"), Punct('(')], inner + tail);
      InnerRoundTrip(c.properties, loop, tail);
      assert tail[1..] == rest;
    } else {
      InnerRoundTrip(c.properties, loop, rest);
      assert (inner + rest)[0] == Word("await");
    }
  }

  lemma {:induction false} IdsRoundTrip(ids: seq<nat>, room: nat, rest: seq<Token>)
    requires 1 <= |ids| <= room && forall i :: 0 <= i < |ids| ==> SafeId(ids[i])
    requires !StartsWith(rest, Punct(','))
    ensures ParseIds(PrintIds(ids) + rest, room) == Ok(ids, rest)
  {
    var ts := PrintIds(ids) + rest;
    assert ids == [ids[0]] + ids[1..];
    if |ids| == 1 {
      assert ids == [ids[0]] && ts[1..] == rest;
    } else {
      assert ts == [Number(ids[0]), Punct(',')] + (PrintIds(ids[1..]) + rest);
      assert ts[2..] == PrintIds(ids[1..]) + rest;
      IdsRoundTrip(ids[1..], room - 1, rest);
    }
  }

  lemma CallStart(c: Call)
    ensures PrintCall(c) != [] && PrintCall(c)[0] in {Word("text"), Word("await")}
  {
  }

  lemma BodyRoundTrip(c: Call, block: Block, rest: seq<Token>)
    requires GoodCall(c, true)
    ensures ParseBody(PrintBody(c, block) + rest) == Ok((c, block), rest)
  {
    hide ParseCall, GoodCall, PrintCall;
    if block.NoBlock? {
      CallRoundTrip(c, true, rest);
      CallStart(c);
    } else {
      var close := if block.semicolon then [Punct(';'), Punct('}')] else [Punct('}')];
      var ts := PrintBody(c, block) + rest;
      assert ts == [Punct('{')] + (PrintCall(c) + (close + rest));
      assert ts[1..] == PrintCall(c) + (close + rest);
      CallRoundTrip(c, true, close + rest);
      assert block.semicolon ==> (close + rest)[1..] == [Punct('}')] + rest;
      assert ([Punct('}')] + rest)[1..] == rest;
    }
  }

  lemma HeaderRoundTrip(ids: seq<nat>, rest: seq<Token>)
    requires 1 <= |ids| <= MAX_LOOP && forall i :: 0 <= i < |ids| ==> SafeId(ids[i])
    ensures ParseHeader(PrintHeader(ids) + rest) == Ok(ids, rest)
  {
    hide ParseIds, PrintIds;
    var tail := LOOP_NECK + rest;
    Regroup(LOOP_HEAD, PrintIds(ids) + LOOP_NECK, rest);
    Regroup(PrintIds(ids), LOOP_NECK, rest);
    ExpectAppend(LOOP_HEAD, PrintIds(ids) + tail);
    IdsRoundTrip(ids, MAX_LOOP, tail);
    ExpectAppend(LOOP_NECK, rest);
  }

  lemma StatementRoundTrip(s: Statement, rest: seq<Token>)
    requires GoodStatement(s)
    ensures ParseStatement(PrintStatement(s) + rest) == Ok(s, rest)
  {
    hide ParseCall, ParseHeader, ParseBody, GoodCall, PrintCall, PrintBody;
    match s {
      case Empty => assert (PrintStatement(s) + rest)[1..] == rest;
      case Plain(c) =>
        CallStart(c);
        CallRoundTrip(c, false, rest);
      case For(ids, body, block) =>
        Regroup(PrintHeader(ids), PrintBody(body, block), rest);
        assert PrintHeader(ids)[0] == Word("for");
        HeaderRoundTrip(ids, PrintBody(body, block) + rest);
        BodyRoundTrip(body, block, rest);
    }
  }

  /** Completeness: every good program is read back from its printing. */
  lemma {:induction false} ProgramRoundTrip(p: Program)
    requires GoodProgram(p)
    ensures ParseProgram(Print(p)) == Some(p)
  {
    if p != [] {
      StatementRoundTrip(p[0], Print(p[1..]));
      ProgramRoundTrip(p[1..]);
      assert p == [p[0]] + p[1..];
    }
  }

  // ---- printing undoes parsing ----

  lemma PropertySound(ts: seq<Token>, loop: bool)
    requires ParseProperty(ts, loop).Ok?
    ensures var r := ParseProperty(ts, loop); GoodProperty(r.value, loop) && ts == PrintProperty(r.value) + r.rest
  {
  }

  lemma PrintPropertiesCons(p: Property, ps: seq<Property>)
    requires ps != []
    ensures PrintProperties([p] + ps) == PrintProperty(p) + ([Punct(',')] + PrintProperties(ps))
  {
    assert ([p] + ps)[1..] == ps;
  }

  lemma {:induction false} PropertiesSound(ts: seq<Token>, loop: bool, keys: set<string>)
    requires ParseProperties(ts, loop, keys).Ok?
    ensures var r := ParseProperties(ts, loop, keys);
      && GoodProperties(r.value, loop) && ts == PrintProperties(r.value) + r.rest
      && forall i :: 0 <= i < |r.value| ==> KeyOf(r.value[i]) !in keys
    decreases |ts|
  {
    hide ParseProperty, PrintProperty, GoodProperty;
    PropertySound(ts, loop);
    var first := ParseProperty(ts, loop);
    var p, rest := first.value, first.rest;
    if StartsWith(rest, Punct(',')) {
      PropertiesSound(rest[1..], loop, keys + {KeyOf(p)});
      var more := ParseProperties(rest[1..], loop, keys + {KeyOf(p)});
      PrintPropertiesCons(p, more.value);
      assert rest == [Punct(',')] + (PrintProperties(more.value) + more.rest);
      Regroup([Punct(',')], PrintProperties(more.value), more.rest);
      Regroup(PrintProperty(p), [Punct(',')] + PrintProperties(more.value), more.rest);
    } else {
      assert PrintProperties([p]) == PrintProperty(p);
    }
  }

  lemma InnerSound(ts: seq<Token>, loop: bool)
    requires ParseInner(ts, loop).Ok?
    ensures var r := ParseInner(ts, loop); GoodProperties(r.value, loop) && ts == PrintInner(r.value) + r.rest
  {
    hide ParseProperties, PrintProperties, GoodProperties;
    var r := ParseInner(ts, loop);
    var ts1 := Expect(OPENING, ts).value;
    PropertiesSound(ts1, loop, {});
    Regroup(PrintProperties(r.value), CLOSING, r.rest);
    Regroup(OPENING, PrintProperties(r.value) + CLOSING, r.rest);
  }

  lemma CallSound(ts: seq<Token>, loop: bool)
    requires ParseCall(ts, loop).Ok?
    ensures var r := ParseCall(ts, loop); GoodCall(r.value, loop) && ts == PrintCall(r.value) + r.rest
  {
    hide ParseInner, PrintInner, Complete, GoodProperties;
    var r := ParseCall(ts, loop);
    if StartsWith(ts, Word("text")) {
      var ts1 := Expect([Word("text"), Punct('(')], ts).value;
      InnerSound(ts1, loop);
      var inner := PrintInner(r.value.properties);
      assert ts1 == inner + ([Punct(')')] + r.rest);
      Regroup(inner, [Punct(')')], r.rest);
      Regroup([Word("text"), Punct('(')], inner + [Punct(')')], r.rest);
    } else {
      InnerSound(ts, loop);
    }
  }

  lemma {:induction false} IdsSound(ts: seq<Token>, room: nat)
    requires ParseIds(ts, room).Ok?
    ensures var r := ParseIds(ts, room);
      && 1 <= |r.value| <= room && (forall i :: 0 <= i < |r.value| ==> SafeId(r.value[i]))
      && ts == PrintIds(r.value) + r.rest
    decreases room
  {
    if StartsWith(ts[1..], Punct(',')) {
      IdsSound(ts[2..], room - 1);
      var more := ParseIds(ts[2..], room - 1);
      assert ([ts[0].value] + more.value)[1..] == more.value;
      assert ts == [ts[0], Punct(',')] + (PrintIds(more.value) + more.rest);
    }
  }

  lemma BodySound(ts: seq<Token>)
    requires ParseBody(ts).Ok?
    ensures var r := ParseBody(ts); GoodCall(r.value.0, true) && ts == PrintBody(r.value.0, r.value.1) + r.rest
  {
    hide ParseCall, PrintCall, GoodCall;
    var r := ParseBody(ts);
    if StartsWith(ts, Punct('{')) {
      CallSound(ts[1..], true);
      var c := ParseCall(ts[1..], true);
      var close := if StartsWith(c.rest, Punct(';')) then [Punct(';'), Punct('}')] else [Punct('}')];
      assert c.rest == close + r.rest;
      Regroup(PrintCall(c.value), close, r.rest);
      Regroup([Punct('{')], PrintCall(c.value) + close, r.rest);
      assert ts == [Punct('{')] + ts[1..];
    } else {
      CallSound(ts, true);
    }
  }

  lemma HeaderSound(ts: seq<Token>)
    requires ParseHeader(ts).Ok?
    ensures var r := ParseHeader(ts);
      && 1 <= |r.value| <= MAX_LOOP && (forall i :: 0 <= i < |r.value| ==> SafeId(r.value[i]))
      && ts == PrintHeader(r.value) + r.rest
  {
    hide ParseIds, PrintIds;
    var r := ParseHeader(ts);
    IdsSound(Expect(LOOP_HEAD, ts).value, MAX_LOOP);
    Regroup(PrintIds(r.value), LOOP_NECK, r.rest);
    Regroup(LOOP_HEAD, PrintIds(r.value) + LOOP_NECK, r.rest);
  }

  lemma StatementSound(ts: seq<Token>)
    requires ParseStatement(ts).Ok?
    ensures var r := ParseStatement(ts); GoodStatement(r.value) && ts == PrintStatement(r.value) + r.rest
  {
    hide ParseCall, PrintCall, GoodCall, ParseHeader, PrintHeader, ParseBody, PrintBody;
    var r := ParseStatement(ts);
    if StartsWith(ts, Punct(';')) {
    } else if StartsWith(ts, Word("for")) {
      HeaderSound(ts);
      BodySound(ParseHeader(ts).rest);
      Regroup(PrintHeader(r.value.ids), PrintBody(r.value.body, r.value.block), r.rest);
    } else {
      CallSound(ts, false);
    }
  }

  /** Soundness: whatever is accepted is the printing of a good program. */
  lemma {:induction false} ProgramSound(ts: seq<Token>)
    requires ParseProgram(ts).Some?
    ensures GoodProgram(ParseProgram(ts).value) && Print(ParseProgram(ts).value) == ts
    decreases |ts|
  {
    if ts != [] {
      StatementSound(ts);
      var s := ParseStatement(ts);
      ProgramSound(s.rest);
      var p := ParseProgram(ts).value;
      assert p[1..] == ParseProgram(s.rest).value;
    }
  }
}
