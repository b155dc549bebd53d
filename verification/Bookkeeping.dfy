/** The recogniser as it runs, one cursor over the tokens, and what it accepts. */
module Bookkeeping {
  import opened Prelude
  import opened BookkeepingGrammar

  function KindOf(made: seq<Made>): Option<Kind> {
    if |made| == 0 || |made| > MAX_CALLS then None
    else Some(if Deletes(made) then Coordination else ReadOnly)
  }

  /** What the tokens are recognised as: judged by the calls the parsed program would make. */
  function Recognised(tokens: seq<Token>): Option<Kind> {
    var p := ParseProgram(tokens);
    if p.None? then None
    else
      ProgramSound(tokens);
      KindOf(Run(p.value))
  }

  /** A program of 1 to 256 calls; it coordinates if one of them deletes, and else only reads. */
  ghost predicate IsOfKind(p: Program, kind: Kind)
    requires GoodProgram(p)
  {
    1 <= |Run(p)| <= 256 && (kind == Coordination <==> exists i :: 0 <= i < |Run(p)| && Run(p)[i].action == Delete)
  }

  lemma KindMeans(p: Program, kind: Kind)
    requires GoodProgram(p)
    ensures KindOf(Run(p)) == Some(kind) <==> IsOfKind(p, kind)
  {
    hide Run;
  }

  /** The accepted token lists are exactly the printings of good programs that make 1 to 256 calls. */
  lemma RecognisesExactly(tokens: seq<Token>, kind: Kind)
    ensures Recognised(tokens) == Some(kind) <==>
      exists p :: GoodProgram(p) && Print(p) == tokens && IsOfKind(p, kind)
  {
    if Recognised(tokens) == Some(kind) {
      ProgramSound(tokens);
      assert Print(ParseProgram(tokens).value) == tokens;
      KindMeans(ParseProgram(tokens).value, kind);
    }
    if p :| GoodProgram(p) && Print(p) == tokens && IsOfKind(p, kind) {
      ProgramRoundTrip(p);
      KindMeans(p, kind);
    }
  }

  // ---- which programs are good ----

  /** The id of a todo, or, in a loop, its variable. */
  predicate NamesTodo(p: Property, loop: bool) {
    || (p.IdIs? && p.id.Literal? && 1 <= p.id.n <= 9007199254740991)
    || (loop && (p.IdShorthand? || (p.IdIs? && p.id.LoopVariable?)))
  }

  predicate NamesAction(p: Property, actions: set<Action>) {
    p.ActionIs? && p.action in actions
  }

  lemma ReadTwo(p: Property, q: Property)
    ensures ActionOf([p]) == (if p.ActionIs? then Some(p.action) else None) && (IdOf([p]).None? <==> p.ActionIs?)
    ensures ActionOf([p, q]) == if p.ActionIs? then Some(p.action) else if q.ActionIs? then Some(q.action) else None
    ensures IdOf([p, q]).None? <==> p.ActionIs? && q.ActionIs?
  {
    assert [p, q][1..] == [q] && [p][1..] == [] && [q][1..] == [];
  }

  /** Two keys are all there are. */
  lemma SameKeys(p: Property, q: Property, r: Property)
    ensures KeyOf(p) == KeyOf(q) || KeyOf(q) == KeyOf(r) || KeyOf(p) == KeyOf(r)
  {
  }

  lemma TwoProperties(ps: seq<Property>, loop: bool)
    requires GoodProperties(ps, loop)
    ensures 1 <= |ps| <= 2 && (|ps| == 2 ==> ps[0].ActionIs? != ps[1].ActionIs?)
  {
    if |ps| > 2 {
      SameKeys(ps[0], ps[1], ps[2]);
    }
  }

  lemma NamesMean(p: Property, loop: bool)
    ensures GoodProperty(p, loop) <==> p.ActionIs? || NamesTodo(p, loop)
    ensures NamesTodo(p, loop) ==> !p.ActionIs?
  {
  }

  /** The good calls: to list, naming no todo, and to get or delete one, named before or after. */
  lemma GoodCallMeans(c: Call, loop: bool)
    ensures var ps := c.properties;
      GoodCall(c, loop) <==>
        || (|ps| == 1 && NamesAction(ps[0], {List}))
        || (|ps| == 2 && NamesAction(ps[0], {Get, Action.Delete}) && NamesTodo(ps[1], loop))
        || (|ps| == 2 && NamesTodo(ps[0], loop) && NamesAction(ps[1], {Get, Action.Delete}))
  {
    var ps := c.properties;
    if GoodProperties(ps, loop) {
      TwoProperties(ps, loop);
    }
    if |ps| == 1 {
      assert ps == [ps[0]];
      ReadTwo(ps[0], ps[0]);
      NamesMean(ps[0], loop);
    } else if |ps| == 2 {
      assert ps == [ps[0], ps[1]];
      ReadTwo(ps[0], ps[1]);
      NamesMean(ps[0], loop);
      NamesMean(ps[1], loop);
    }
    hide GoodProperty, NamesTodo, ActionOf, IdOf;
    if |ps| == 1 {
      assert GoodProperties(ps, loop) <==> GoodProperty(ps[0], loop);
    } else if |ps| == 2 {
      assert GoodProperties(ps, loop) <==>
        GoodProperty(ps[0], loop) && GoodProperty(ps[1], loop) && KeyOf(ps[0]) != KeyOf(ps[1]);
      assert KeyOf(ps[0]) != KeyOf(ps[1]) <==> ps[0].ActionIs? != ps[1].ActionIs?;
      assert Complete(ps) <==> ActionOf(ps).Some? && (ActionOf(ps) == Some(List) <==> IdOf(ps).None?);
      assert GoodCall(c, loop) <==> GoodProperties(ps, loop) && Complete(ps);
      if ps[0].ActionIs? && !ps[1].ActionIs? {
        assert Complete(ps) <==> ps[0].action != List;
        assert NamesAction(ps[0], {Get, Action.Delete}) <==> ps[0].action != List;
      } else if !ps[0].ActionIs? && ps[1].ActionIs? {
        assert Complete(ps) <==> ps[1].action != List;
        assert NamesAction(ps[1], {Get, Action.Delete}) <==> ps[1].action != List;
      }
    }
  }

  /** A loop is good over 1 to 128 ids, with a good call in it. */
  lemma GoodLoopMeans(ids: seq<nat>, body: Call, block: Block)
    ensures GoodStatement(For(ids, body, block)) <==>
      && 1 <= |ids| <= 128 && (forall i :: 0 <= i < |ids| ==> 1 <= ids[i] <= 9007199254740991) && GoodCall(body, true)
  {
    hide GoodCall;
  }

  /** What a property names, if it names a todo: a literal id, or that of the loop's turn. */
  function IdNamed(p: Property, variable: nat): nat {
    if p.IdIs? && p.id.Literal? then p.id.n else variable
  }

  /** A call lists all todos, or does what it names to the todo that it names. */
  lemma CallMeans(c: Call, loop: bool, variable: nat)
    requires GoodCall(c, loop)
    ensures var ps := c.properties;
      RunCall(c, variable) ==
        if |ps| == 1 then Made(List, None)
        else if ps[0].ActionIs? then Made(ps[0].action, Some(IdNamed(ps[1], variable)))
        else Made(ps[1].action, Some(IdNamed(ps[0], variable)))
  {
    var ps := c.properties;
    TwoProperties(ps, loop);
    GoodCallMeans(c, loop);
    if |ps| == 1 {
      assert ps == [ps[0]] && ps[1..] == [];
      assert IdOf(ps) == None && ActionOf(ps) == Some(List);
    } else {
      assert ps[1..] == [ps[1]] && [ps[1]][1..] == [];
      assert ActionOf(ps) == Some(if ps[0].ActionIs? then ps[0].action else ps[1].action);
      var named := if ps[0].ActionIs? then ps[1] else ps[0];
      assert IdOf(ps) == Some(if named.IdIs? then named.id else LoopVariable);
    }
    hide GoodProperty, ActionOf, IdOf;
  }

  /** How many calls a statement makes: one, or in a loop one for each id. */
  function CallsOf(s: Statement): nat {
    match s
    case Empty => 0
    case Plain(_) => 1
    case For(ids, _, _) => |ids|
  }

  function AllCalls(p: Program): nat {
    if p == [] then 0 else CallsOf(p[0]) + AllCalls(p[1..])
  }

  /** A statement that calls to delete. */
  predicate CallsDelete(s: Statement) {
    match s
    case Empty => false
    case Plain(c) => exists i :: 0 <= i < |c.properties| && NamesAction(c.properties[i], {Action.Delete})
    case For(_, c, _) => exists i :: 0 <= i < |c.properties| && NamesAction(c.properties[i], {Action.Delete})
  }

  lemma CallDeletes(c: Call, loop: bool, variable: nat)
    requires GoodCall(c, loop)
    ensures RunCall(c, variable).action == Action.Delete <==>
      exists i :: 0 <= i < |c.properties| && NamesAction(c.properties[i], {Action.Delete})
  {
    var ps := c.properties;
    TwoProperties(ps, loop);
    if |ps| == 1 {
      assert ps == [ps[0]];
      ReadTwo(ps[0], ps[0]);
    } else {
      assert ps == [ps[0], ps[1]];
      ReadTwo(ps[0], ps[1]);
    }
    hide GoodProperty, IdOf, ActionOf;
  }

  lemma StatementMeans(s: Statement)
    requires GoodStatement(s)
    ensures |RunStatement(s)| == CallsOf(s)
    ensures Deletes(RunStatement(s)) <==> CallsDelete(s)
  {
    var made := RunStatement(s);
    match s {
      case Empty =>
      case Plain(c) =>
        CallDeletes(c, false, 0);
        assert made[0] == RunCall(c, 0);
      case For(ids, c, _) =>
        forall i | 0 <= i < |made|
          ensures made[i].action == Action.Delete <==> CallsDelete(s)
        {
          CallDeletes(c, true, ids[i]);
        }
        assert made[0] in made;
    }
    hide GoodCall, RunCall;
  }

  /**
    A good program makes one call for each that stands alone and for each id of a loop, and deletes if one of
    its calls does.
   */
  lemma {:induction false} ProgramMeans(p: Program)
    requires GoodProgram(p)
    ensures |Run(p)| == AllCalls(p)
    ensures Deletes(Run(p)) <==> exists k :: 0 <= k < |p| && CallsDelete(p[k])
  {
    if p != [] {
      hide RunStatement, CallsOf, Deletes, CallsDelete, GoodStatement;
      StatementMeans(p[0]);
      ProgramMeans(p[1..]);
      DeletesAppend(RunStatement(p[0]), Run(p[1..]));
      assert forall k :: 0 < k < |p| ==> p[k] == p[1..][k - 1];
      if k :| 0 <= k < |p[1..]| && CallsDelete(p[1..][k]) {
        assert CallsDelete(p[k + 1]);
      }
    }
  }

  /** No two programs print alike, so the kind does not depend on how the tokens are read. */
  lemma PrintInjective(p: Program, q: Program)
    requires GoodProgram(p) && GoodProgram(q) && Print(p) == Print(q)
    ensures p == q
  {
    ProgramRoundTrip(p);
    ProgramRoundTrip(q);
  }

  // ---- parsing in steps ----

  function Prepend<T>(done: seq<T>, r: Parsed<seq<T>>): Parsed<seq<T>> {
    match r case Fail => Fail case Ok(more, rest) => Ok(done + more, rest)
  }

  function PrependProgram(done: Program, more: Option<Program>): Option<Program> {
    if more.None? then None else Some(done + more.value)
  }

  function AfterSemicolon(ts: seq<Token>): seq<Token> {
    if StartsWith(ts, Punct(';')) then ts[1..] else ts
  }

  lemma {:induction false} RunAppend(p: Program, q: Program)
    requires GoodProgram(p) && GoodProgram(q)
    ensures GoodProgram(p + q) && Run(p + q) == Run(p) + Run(q)
  {
    if p == [] {
      assert p + q == q;
    } else {
      assert (p + q)[1..] == p[1..] + q;
      RunAppend(p[1..], q);
    }
  }

  lemma DeletesAppend(a: seq<Made>, b: seq<Made>)
    ensures Deletes(a + b) <==> Deletes(a) || Deletes(b)
  {
    if i :| 0 <= i < |a| && a[i].action == Delete {
      assert (a + b)[i].action == Delete;
    }
    if i :| 0 <= i < |b| && b[i].action == Delete {
      assert (a + b)[|a| + i].action == Delete;
    }
  }

  lemma {:induction false} ActionOfSnoc(ps: seq<Property>, p: Property)
    ensures ActionOf(ps + [p]) ==
      if ActionOf(ps).Some? then ActionOf(ps) else if p.ActionIs? then Some(p.action) else None
    ensures IdOf(ps + [p]).Some? <==> IdOf(ps).Some? || !p.ActionIs?
  {
    if ps != [] {
      assert (ps + [p])[1..] == ps[1..] + [p];
      ActionOfSnoc(ps[1..], p);
    }
  }

  /** Reading one more statement, given what follows it. */
  lemma ProgramStep(done: Program, ts: seq<Token>)
    requires ts != [] && ParseStatement(ts).Ok? && GoodProgram(done)
    ensures GoodStatement(ParseStatement(ts).value)
    ensures var s := ParseStatement(ts);
      && GoodProgram(done + [s.value])
      && Run(done + [s.value]) == Run(done) + RunStatement(s.value)
      && PrependProgram(done, ParseProgram(ts)) == PrependProgram(done + [s.value], ParseProgram(s.rest))
  {
    hide ParseStatement, GoodStatement, RunStatement;
    StatementSound(ts);
    var s := ParseStatement(ts);
    var more := ParseProgram(s.rest);
    RunAppend(done, [s.value]);
    assert Run([s.value]) == RunStatement(s.value) + Run([]);
    if more.Some? {
      assert done + ([s.value] + more.value) == done + [s.value] + more.value;
    }
  }

  lemma PrependNothing<T>(r: Parsed<seq<T>>)
    ensures Prepend([], r) == r
  {
    if r.Ok? {
      assert [] + r.value == r.value;
    }
  }

  lemma PrependTwice<T>(a: seq<T>, b: seq<T>, r: Parsed<seq<T>>)
    ensures Prepend(a, Prepend(b, r)) == Prepend(a + b, r)
  {
    if r.Ok? {
      assert a + (b + r.value) == a + b + r.value;
    }
  }

  class Recogniser {
    const tokens: seq<Token>
    var cursor: nat
    var calls: nat
    var deletes: bool

    constructor (tokens: seq<Token>)
      ensures this.tokens == tokens && cursor == 0 && calls == 0 && !deletes
    {
      this.tokens := tokens;
      cursor, calls, deletes := 0, 0, false;
    }

    /** What is still to be read; past the end there is nothing. */
    ghost function Rest(): seq<Token>
      reads this
    {
      if cursor <= |tokens| then tokens[cursor..] else []
    }

    method Take(t: Token) returns (ok: bool)
      modifies this`cursor
      ensures ok <==> StartsWith(old(Rest()), t)
      ensures Rest() == if ok then old(Rest())[1..] else old(Rest())
      ensures !ok ==> cursor == old(cursor)
    {
      ok := cursor < |tokens| && tokens[cursor] == t;
      if ok {
        cursor := cursor + 1;
      }
    }

    /** `tokens[cursor++]` */
    method Next() returns (t: Option<Token>)
      modifies this`cursor
      ensures t == if old(Rest()) == [] then None else Some(old(Rest())[0])
      ensures Rest() == if t.Some? then old(Rest())[1..] else []
    {
      t := if cursor < |tokens| then Some(tokens[cursor]) else None;
      cursor := cursor + 1;
    }

    method Sequence(parts: seq<Token>) returns (ok: bool)
      modifies this`cursor
      ensures ok <==> Expect(parts, old(Rest())).Some?
      ensures ok ==> Rest() == Expect(parts, old(Rest())).value
    {
      var i := 0;
      ghost var start := Rest();
      while i < |parts|
        invariant 0 <= i <= |parts| && i <= |start|
        invariant parts[..i] == start[..i] && Rest() == start[i..]
      {
        var taken := Take(parts[i]);
        if !taken {
          PrefixAt(parts, start, i);
          return false;
        }
        assert parts[i] == start[i];
        i := i + 1;
      }
      ok := true;
    }

    method PositiveId() returns (ok: bool)
      modifies this`cursor
      ensures ok <==> old(Rest()) != [] && old(Rest())[0].Number? && SafeId(old(Rest())[0].value)
      ensures Rest() == if ok then old(Rest())[1..] else old(Rest())
    {
      ok := cursor < |tokens| && tokens[cursor].Number? && SafeId(tokens[cursor].value);
      if ok {
        cursor := cursor + 1;
      }
    }

    /** One property whose key has not been seen: its key, its action if it is one, and what it is. */
    method ReadProperty(loop: bool, keys: set<string>)
      returns (ok: bool, key: string, action: Option<Action>, ghost p: Property)
      modifies this`cursor
      ensures !ok ==> ParseProperty(old(Rest()), loop).Fail? || KeyOf(ParseProperty(old(Rest()), loop).value) in keys
      ensures ok ==> ParseProperty(old(Rest()), loop) == Ok(p, Rest()) && KeyOf(p) == key && key !in keys
      ensures ok ==> action == if p.ActionIs? then Some(p.action) else None
    {
      ok, key, action, p := false, "", None, IdShorthand;
      ghost var ts := Rest();
      var raw := Next();
      if raw.None? {
        return;
      }
      key := Unquoted(raw.value);
      if key !in {"action", "id"} || key in keys {
        return;
      }
      if key == "action" {
        var colon := Take(Punct(':'));
        if !colon {
          return;
        }
        var value := Next();
        if value.None? || !value.value.Quoted? || ActionNamed(value.value.body).None? {
          return;
        }
        action := ActionNamed(value.value.body);
        p := ActionIs(StyleOf(raw.value), value.value.quote, action.value);
      } else {
        var colon := Take(Punct(':'));
        if colon {
          ghost var value := Rest();
          var number := PositiveId();
          var variable := false;
          if !number && loop {
            variable := Take(Word("id"));
          }
          if !number && !variable {
            return;
          }
          p := IdIs(StyleOf(raw.value), if number then Literal(value[0].value) else LoopVariable);
        } else {
          if !loop || raw.value != Word("id") {
            return;
          }
          p := IdShorthand;
        }
      }
      ok := true;
    }

    /** The properties of a call: whether they parse, the action, and whether there is an id. */
    method ReadProperties(loop: bool) returns (ok: bool, action: Option<Action>, id: bool)
      modifies this`cursor
      ensures ok <==> ParseProperties(old(Rest()), loop, {}).Ok?
      ensures ok ==> var r := ParseProperties(old(Rest()), loop, {});
        Rest() == r.rest && action == ActionOf(r.value) && (id <==> IdOf(r.value).Some?)
    {
      ghost var start := Rest();
      ghost var done: seq<Property> := [];
      var keys: set<string> := {};
      action, id := None, false;
      PrependNothing(ParseProperties(start, loop, {}));
      while true
        invariant ParseProperties(start, loop, {}) == Prepend(done, ParseProperties(Rest(), loop, keys))
        invariant action == ActionOf(done) && (id <==> IdOf(done).Some?)
        invariant "action" !in keys ==> action.None?
        decreases |Rest()|
      {
        ghost var ts := Rest();
        ghost var p;
        var one, key, found;
        one, key, found, p := ReadProperty(loop, keys);
        if !one {
          return false, None, false;
        }
        ActionOfSnoc(done, p);
        if found.Some? {
          action := found;
        } else {
          id := true;
        }
        ghost var after := Rest();
        var comma := Take(Punct(','));
        if !comma {
          assert ParseProperties(ts, loop, keys) == Ok([p], after);
          return true, action, id;
        }
        assert ParseProperties(ts, loop, keys) == Prepend([p], ParseProperties(Rest(), loop, keys + {key}));
        PrependTwice(done, [p], ParseProperties(Rest(), loop, keys + {key}));
        keys := keys + {key};
        done := done + [p];
      }
    }

    /** `await tools.todo({...})` */
    method ReadInner(loop: bool) returns (ok: bool, action: Option<Action>, id: bool)
      modifies this`cursor
      ensures ok <==> ParseInner(old(Rest()), loop).Ok?
      ensures ok ==> var r := ParseInner(old(Rest()), loop);
        Rest() == r.rest && action == ActionOf(r.value) && (id <==> IdOf(r.value).Some?)
    {
      hide ParseProperties;
      ok, action, id := false, None, false;
      var begun := Sequence(OPENING);
      if !begun {
        return;
      }
      ok, action, id := ReadProperties(loop);
      if !ok {
        return;
      }
      ok := Sequence(CLOSING);
    }

    /** One call; a semicolon after it is taken too. */
    method ReadCall(loop: bool) returns (ok: bool)
      modifies this`cursor, this`deletes
      ensures ok <==> ParseCall(old(Rest()), loop).Ok?
      ensures ok ==> var r := ParseCall(old(Rest()), loop);
        Rest() == AfterSemicolon(r.rest) && (deletes <==> old(deletes) || ActionOf(r.value.properties) == Some(Delete))
    {
      hide ParseInner;
      ghost var start := Rest();
      var display := Take(Word("text"));
      if display {
        var paren := Take(Punct('('));
        if !paren {
          return false;
        }
        assert start[2..] == Rest() && [Word("text"), Punct('(')] <= start;
      }
      var good, action, id := ReadInner(loop);
      if !good {
        return false;
      }
      if display {
        var close := Take(Punct(')'));
        if !close {
          return false;
        }
      }
      if action.None? || (if action == Some(List) then id else !id) {
        return false;
      }
      deletes := deletes || action == Some(Delete);
      var _ := Take(Punct(';'));
      ok := true;
    }

    /** The ids of a loop, and how many there are. */
    method ReadIds() returns (ok: bool, length: nat)
      modifies this`cursor
      ensures ok <==> ParseIds(old(Rest()), MAX_LOOP).Ok?
      ensures ok ==> Rest() == ParseIds(old(Rest()), MAX_LOOP).rest && length == |ParseIds(old(Rest()), MAX_LOOP).value|
    {
      ghost var start := Rest();
      ghost var done: seq<nat> := [];
      length := 0;
      PrependNothing(ParseIds(start, MAX_LOOP));
      while true
        invariant length == |done| <= MAX_LOOP
        invariant ParseIds(start, MAX_LOOP) == Prepend(done, ParseIds(Rest(), MAX_LOOP - length))
        decreases MAX_LOOP - length
      {
        ghost var ts := Rest();
        var number := PositiveId();
        if !number {
          return false, 0;
        }
        if length + 1 > MAX_LOOP {
          return false, 0;
        }
        length := length + 1;
        ghost var after := Rest();
        var comma := Take(Punct(','));
        if !comma {
          return true, length;
        }
        assert ts[2..] == Rest();
        PrependTwice(done, [ts[0].value], ParseIds(Rest(), MAX_LOOP - length));
        done := done + [ts[0].value];
      }
    }

    /** The body of a loop, with or without braces. */
    method ReadBody() returns (ok: bool)
      modifies this`cursor, this`deletes
      ensures ok <==> ParseBody(old(Rest())).Ok?
      ensures ok ==> var r := ParseBody(old(Rest()));
        && Rest() == (if r.value.1.NoBlock? then AfterSemicolon(r.rest) else r.rest)
        && (deletes <==> old(deletes) || ActionOf(r.value.0.properties) == Some(Delete))
    {
      hide ParseCall;
      var braces := Take(Punct('{'));
      var good := ReadCall(true);
      if !good {
        return false;
      }
      if braces {
        var close := Take(Punct('}'));
        if !close {
          return false;
        }
      }
      ok := true;
    }

    /** A loop whose first token has been taken, up to its body: how many ids it runs over. */
    method ReadHeader(ghost ts: seq<Token>) returns (ok: bool, length: nat)
      requires StartsWith(ts, Word("for")) && Rest() == ts[1..]
      modifies this`cursor
      ensures ok <==> ParseHeader(ts).Ok?
      ensures ok ==> Rest() == ParseHeader(ts).rest && length == |ParseHeader(ts).value|
    {
      hide ParseIds;
      assert ts == [Word("for")] + ts[1..];
      assert LOOP_HEAD == [Word("for")] + LOOP_HEAD[1..];
      ok, length := false, 0;
      var head := Sequence(LOOP_HEAD[1..]);
      if !head {
        return;
      }
      assert Rest() == ts[|LOOP_HEAD|..];
      ok, length := ReadIds();
      if !ok {
        return;
      }
      ok := Sequence(LOOP_NECK);
    }

    method ReadLoop(ghost ts: seq<Token>) returns (ok: bool, length: nat)
      requires StartsWith(ts, Word("for")) && Rest() == ts[1..]
      modifies this`cursor, this`deletes
      ensures ok <==> ParseStatement(ts).Ok?
      ensures ok ==> var r := ParseStatement(ts);
        && r.value.For? && |r.value.ids| == length
        && Rest() == (if r.value.block.NoBlock? then AfterSemicolon(r.rest) else r.rest)
        && (deletes <==> old(deletes) || ActionOf(r.value.body.properties) == Some(Delete))
    {
      hide ParseHeader, ParseBody;
      ok, length := ReadHeader(ts);
      if ok {
        ok := ReadBody();
      }
    }

    /** The statements read so far, and that reading the rest decides everything else. */
    ghost predicate Reading(done: Program)
      reads this
    {
      && GoodProgram(done)
      && ParseProgram(tokens) == PrependProgram(done, ParseProgram(Rest()))
      && |Run(done)| == calls && (Deletes(Run(done)) <==> deletes)
    }

    /** One statement, and the semicolon after a call outside braces, which is an empty statement of its own. */
    method ReadStatement(ghost done: Program) returns (ok: bool, ghost more: Program)
      requires Rest() != [] && Reading(done)
      modifies this`cursor, this`calls, this`deletes
      ensures ok ==> Reading(more) && |Rest()| < |old(Rest())|
      ensures !ok ==> ParseProgram(tokens).None?
    {
      hide ParseStatement, ParseCall, ParseProgram;
      ghost var ts := Rest();
      more := done;
      ok := true;
      var empty := Take(Punct(';'));
      if empty {
        EmptyStep(done, ts);
        more := done + [Empty];
        return;
      }
      var loop := Take(Word("for"));
      if loop {
        var length;
        ok, length := ReadLoop(ts);
        if !ok {
          StatementFails(done, ts);
          return;
        }
        calls := calls + length;
      } else {
        PlainStatement(ts);
        ok := ReadCall(false);
        if !ok {
          StatementFails(done, ts);
          return;
        }
        calls := calls + 1;
      }
      more := done + [ParseStatement(ts).value];
      CallsAdded(done, ts);
      if Rest() != ParseStatement(ts).rest {
        EmptyStep(more, ParseStatement(ts).rest);
        more := more + [Empty];
      }
    }
  }

  lemma StatementFails(done: Program, ts: seq<Token>)
    requires ts != [] && ParseStatement(ts).Fail?
    ensures PrependProgram(done, ParseProgram(ts)).None?
  {
  }

  lemma PlainStatement(ts: seq<Token>)
    requires ts != [] && ts[0] != Punct(';') && ts[0] != Word("for")
    ensures ParseStatement(ts).Ok? <==> ParseCall(ts, false).Ok?
    ensures ParseStatement(ts).Ok? ==>
      && ParseStatement(ts).value == Plain(ParseCall(ts, false).value)
      && ParseStatement(ts).rest == ParseCall(ts, false).rest
  {
  }

  lemma EmptyStep(done: Program, ts: seq<Token>)
    requires StartsWith(ts, Punct(';')) && GoodProgram(done)
    ensures GoodProgram(done + [Empty]) && Run(done + [Empty]) == Run(done)
    ensures PrependProgram(done, ParseProgram(ts)) == PrependProgram(done + [Empty], ParseProgram(ts[1..]))
  {
    ProgramStep(done, ts);
  }

  function CallsIn(s: Statement): nat {
    match s case Empty => 0 case Plain(_) => 1 case For(ids, _, _) => |ids|
  }

  predicate DeletesIn(s: Statement) {
    match s
    case Empty => false
    case Plain(c) => ActionOf(c.properties) == Some(Delete)
    case For(_, c, _) => ActionOf(c.properties) == Some(Delete)
  }

  /** The counters follow the calls the program would make. */
  lemma CallsAdded(done: Program, ts: seq<Token>)
    requires ts != [] && ParseStatement(ts).Ok? && GoodProgram(done)
    ensures var s := ParseStatement(ts).value;
      && GoodProgram(done + [s])
      && PrependProgram(done, ParseProgram(ts)) == PrependProgram(done + [s], ParseProgram(ParseStatement(ts).rest))
      && |Run(done + [s])| == |Run(done)| + CallsIn(s)
      && (Deletes(Run(done + [s])) <==> Deletes(Run(done)) || DeletesIn(s))
  {
    ProgramStep(done, ts);
    StatementSound(ts);
    var s := ParseStatement(ts).value;
    DeletesAppend(Run(done), RunStatement(s));
    if s.For? {
      assert RunStatement(s)[0].action == ActionOf(s.body.properties).value;
    } else if s.Plain? {
      assert RunStatement(s)[0].action == ActionOf(s.call.properties).value;
    }
  }

  /** The recogniser: read statements until the tokens or the patience of 256 calls run out. */
  method BookkeepingKind(tokens: seq<Token>) returns (kind: Option<Kind>)
    ensures kind == Recognised(tokens)
  {
    hide ParseProgram;
    var r := new Recogniser(tokens);
    ghost var done: Program := [];
    assert ParseProgram(tokens) == PrependProgram([], ParseProgram(tokens)) by {
      var p := ParseProgram(tokens);
      if p.Some? {
        assert [] + p.value == p.value;
      }
    }
    assert r.Rest() == tokens;
    while r.cursor < |tokens|
      invariant fresh(r) && r.tokens == tokens && r.Reading(done) && r.calls <= MAX_CALLS
      decreases |r.Rest()|
    {
      var ok;
      ok, done := r.ReadStatement(done);
      if !ok {
        return None;
      }
      if r.calls > MAX_CALLS {
        TooMany(tokens, done, r.Rest());
        return None;
      }
    }
    ParsedAll(tokens, done);
    kind := if r.calls == 0 then None else Some(if r.deletes then Coordination else ReadOnly);
  }

  lemma TooMany(tokens: seq<Token>, done: Program, rest: seq<Token>)
    requires GoodProgram(done) && ParseProgram(tokens) == PrependProgram(done, ParseProgram(rest))
    requires |Run(done)| > MAX_CALLS
    ensures Recognised(tokens).None?
  {
    if ParseProgram(rest).Some? {
      ProgramSound(rest);
      RunAppend(done, ParseProgram(rest).value);
    }
  }

  lemma ParsedAll(tokens: seq<Token>, done: Program)
    requires GoodProgram(done) && ParseProgram(tokens) == PrependProgram(done, ParseProgram([]))
    ensures ParseProgram(tokens) == Some(done)
  {
    assert done + [] == done;
  }
}
