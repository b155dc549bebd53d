/** Which calls share a run, and which thinking goes with a call, said of what happened and in what order. */
module RunsMeaning {
  import opened Prelude
  import opened Runs

  // ---- a branch as a list of moments ----

  /** What a branch does to the runs, one thing at a time. */
  datatype Moment = Happens(part: Part, ms: Option<int>) | Cut | Marks(id: string, failed: bool)

  function Step(m: Model, x: Moment, folds: Folds): Model {
    match x
    case Happens(part, ms) => AddPart(m, part, ms, folds)
    case Cut => BreakRun(m)
    case Marks(id, failed) => SetFailed(m, id, failed)
  }

  function Fold(m: Model, xs: seq<Moment>, folds: Folds): Model {
    if xs == [] then m else Step(Fold(m, xs[..|xs| - 1], folds), xs[|xs| - 1], folds)
  }

  function PartMoments(parts: seq<Part>): seq<Moment> {
    seq(|parts|, i requires 0 <= i < |parts| => Happens(parts[i], None))
  }

  function FailMoments(parts: seq<Part>): seq<Moment> {
    if parts == [] then []
    else
      var part := parts[|parts| - 1];
      FailMoments(parts[..|parts| - 1]) + if part.kind == ToolCallPart && part.id != "" then [Marks(part.id, true)]
        else []
  }

  function MessageMoments(message: Message): seq<Moment> {
    match message.role
    case Assistant => PartMoments(message.parts) + if message.interrupted then FailMoments(message.parts) + [Cut]
      else []
    case ToolResult => if message.toolCallId != "" then [Marks(message.toolCallId, message.isError)] else []
    case Custom => if message.display then [Cut] else []
    case OtherRole => [Cut]
  }

  function EntryMoments(entry: Entry): seq<Moment> {
    match entry
    case MessageEntry(message) => MessageMoments(message)
    case DrawnEntry => [Cut]
    case SilentEntry => []
  }

  function BranchMoments(entries: seq<Entry>): seq<Moment> {
    if entries == [] then [] else BranchMoments(entries[..|entries| - 1]) + EntryMoments(entries[|entries| - 1])
  }

  lemma {:induction false} FoldAppend(m: Model, a: seq<Moment>, b: seq<Moment>, folds: Folds)
    ensures Fold(m, a + b, folds) == Fold(Fold(m, a, folds), b, folds)
  {
    hide Step;
    if b == [] {
      assert a + b == a;
    } else {
      var init := b[..|b| - 1];
      FoldAppend(m, a, init, folds);
      assert (a + b)[..|a + b| - 1] == a + init;
    }
  }

  lemma FoldOne(m: Model, x: Moment, folds: Folds)
    ensures Fold(m, [x], folds) == Step(m, x, folds)
  {
    assert [x][..0] == [];
  }

  lemma PartMomentsSnoc(parts: seq<Part>)
    requires parts != []
    ensures PartMoments(parts) == PartMoments(parts[..|parts| - 1]) + [Happens(parts[|parts| - 1], None)]
  {
  }

  lemma {:induction false} PartsFold(m: Model, parts: seq<Part>, folds: Folds)
    ensures AddParts(m, parts, folds) == Fold(m, PartMoments(parts), folds)
  {
    hide AddPart, PartMoments, Fold;
    if parts == [] {
      NoMoments(m, folds);
    } else {
      var init, part := parts[..|parts| - 1], parts[|parts| - 1];
      PartsFold(m, init, folds);
      PartMomentsSnoc(parts);
      FoldAppend(m, PartMoments(init), [Happens(part, None)], folds);
      FoldOne(AddParts(m, init, folds), Happens(part, None), folds);
    }
  }

  lemma NoMoments(m: Model, folds: Folds)
    ensures PartMoments([]) == [] && Fold(m, [], folds) == m
  {
  }

  lemma {:induction false} FailsFold(m: Model, parts: seq<Part>, folds: Folds)
    ensures FailParts(m, parts) == Fold(m, FailMoments(parts), folds)
  {
    if parts != [] {
      var init, part := parts[..|parts| - 1], parts[|parts| - 1];
      FailsFold(m, init, folds);
      FoldAppend(m, FailMoments(init), [Marks(part.id, true)], folds);
      FoldOne(FailParts(m, init), Marks(part.id, true), folds);
      assert FailMoments(init) + [] == FailMoments(init);
      hide SetFailed;
    }
  }

  lemma MessageFold(m: Model, message: Message, folds: Folds)
    ensures AddMessage(m, message, folds) == Fold(m, MessageMoments(message), folds)
  {
    hide SetFailed, BreakRun, AddParts, FailParts, FailMoments, PartMoments;
    PartsFold(m, message.parts, folds);
    var added := AddParts(m, message.parts, folds);
    FailsFold(added, message.parts, folds);
    var fails := FailMoments(message.parts);
    FoldAppend(m, PartMoments(message.parts), fails + [Cut], folds);
    FoldAppend(added, fails, [Cut], folds);
    FoldOne(FailParts(added, message.parts), Cut, folds);
    FoldOne(m, Cut, folds);
    FoldOne(m, Marks(message.toolCallId, message.isError), folds);
    assert PartMoments(message.parts) + [] == PartMoments(message.parts);
    assert Fold(m, [], folds) == m;
    hide Fold;
  }

  /** Loading a branch goes through its moments, in order. */
  lemma {:induction false} BranchFold(entries: seq<Entry>, folds: Folds)
    ensures AddEntries(EMPTY_MODEL, entries, folds) == Fold(EMPTY_MODEL, BranchMoments(entries), folds)
  {
    hide AddMessage, MessageMoments, BreakRun;
    if entries != [] {
      var init := entries[..|entries| - 1];
      BranchFold(init, folds);
      var before := AddEntries(EMPTY_MODEL, init, folds);
      match entries[|entries| - 1] {
        case MessageEntry(message) =>
          MessageFold(before, message, folds);
          FoldAppend(EMPTY_MODEL, BranchMoments(init), MessageMoments(message), folds);
        case DrawnEntry =>
          FoldAppend(EMPTY_MODEL, BranchMoments(init), [Cut], folds);
          FoldOne(before, Cut, folds);
        case SilentEntry =>
          assert BranchMoments(init) + [] == BranchMoments(init);
      }
    }
  }

  // ---- what moments mean ----

  predicate IsCall(x: Moment) {
    x.Happens? && x.part.kind == ToolCallPart && x.part.id != ""
  }

  /** A call that has not come before. */
  predicate NewCall(xs: seq<Moment>, k: nat)
    requires k < |xs|
  {
    IsCall(xs[k]) && forall j :: 0 <= j < k && IsCall(xs[j]) ==> xs[j].part.id != xs[k].part.id
  }

  predicate Joins(xs: seq<Moment>, k: nat, folds: Folds)
    requires k < |xs|
  {
    IsCall(xs[k]) && NewCall(xs, k) && folds(xs[k].part.name, xs[k].part.args)
  }

  /** Prose, a call that stands alone, or anything else drawn in between. */
  predicate Breaks(xs: seq<Moment>, k: nat, folds: Folds)
    requires k < |xs|
  {
    || xs[k].Cut?
    || (xs[k].Happens? && xs[k].part.kind == TextPart && Trim(xs[k].part.text) != "")
    || (NewCall(xs, k) && !folds(xs[k].part.name, xs[k].part.args))
  }

  /** Nothing breaks the run after position i and before n. */
  ghost predicate Unbroken(xs: seq<Moment>, i: nat, n: nat, folds: Folds)
    requires n <= |xs|
  {
    forall k :: i < k < n ==> !Breaks(xs, k, folds)
  }

  /** The thinking since the last call that came or break, without what is blank. */
  function Pending(xs: seq<Moment>, folds: Folds): seq<string> {
    if xs == [] then []
    else
      var n := |xs| - 1;
      var before := Pending(xs[..n], folds);
      if Joins(xs, n, folds) || Breaks(xs, n, folds) then []
      else before + Thoughts(xs[n])
  }

  lemma Earlier(xs: seq<Moment>, n: nat, k: nat, folds: Folds)
    requires k < n <= |xs|
    ensures NewCall(xs[..n], k) == NewCall(xs, k) && Joins(xs[..n], k, folds) == Joins(xs, k, folds)
    ensures Breaks(xs[..n], k, folds) == Breaks(xs, k, folds)
  {
  }

  // ---- the runs are what the moments say ----

  ghost predicate Registered(xs: seq<Moment>, m: Model, folds: Folds) {
    && (forall k :: 0 <= k < |xs| && NewCall(xs, k) ==>
          if folds(xs[k].part.name, xs[k].part.args) then xs[k].part.id in m.byCall else xs[k].part.id in m.standalone)
    && (forall id :: id in m.byCall || id in m.standalone ==>
          exists k :: 0 <= k < |xs| && IsCall(xs[k]) && xs[k].part.id == id)
  }

  ghost predicate Grouped(xs: seq<Moment>, m: Model, folds: Folds)
    requires Registered(xs, m, folds)
  {
    && (forall i, j :: 0 <= i < j < |xs| && Joins(xs, i, folds) && Joins(xs, j, folds) ==>
          (m.byCall[xs[i].part.id] == m.byCall[xs[j].part.id] <==> Unbroken(xs, i, j, folds)))
    && (forall k :: 0 <= k < |xs| && Joins(xs, k, folds) ==>
          (m.current == Some(m.byCall[xs[k].part.id]) <==> Unbroken(xs, k, |xs|, folds)))
  }

  lemma {:induction false} FoldSound(xs: seq<Moment>, folds: Folds)
    ensures Sound(Fold(EMPTY_MODEL, xs, folds))
  {
    hide Sound, AddPart, BreakRun, SetFailed;
    if xs == [] {
      EmptySound();
    } else {
      FoldSound(xs[..|xs| - 1], folds);
      var m := Fold(EMPTY_MODEL, xs[..|xs| - 1], folds);
      match xs[|xs| - 1] {
        case Happens(part, ms) => AddPartSound(m, part, ms, folds);
        case Cut => BreakRunSound(m);
        case Marks(id, failed) => SetFailedSound(m, id, failed);
      }
    }
  }

  lemma EmptySound()
    ensures Sound(EMPTY_MODEL)
  {
  }

  /** A call is new exactly when the model has not seen its id. */
  lemma NewToModel(xs: seq<Moment>, n: nat, m: Model, folds: Folds)
    requires n < |xs| && Registered(xs[..n], m, folds) && IsCall(xs[n])
    ensures NewCall(xs, n) <==> xs[n].part.id !in m.byCall && xs[n].part.id !in m.standalone
  {
    var id := xs[n].part.id;
    if j :| 0 <= j < n && IsCall(xs[j]) && xs[j].part.id == id {
      FirstOf(xs[..n], j);
    }
  }

  /** Some call of that id was the first. */
  lemma {:induction false} FirstOf(xs: seq<Moment>, j: nat)
    requires j < |xs| && IsCall(xs[j])
    ensures exists k :: 0 <= k <= j && NewCall(xs, k) && xs[k].part.id == xs[j].part.id
  {
    if !NewCall(xs, j) {
      var i :| 0 <= i < j && IsCall(xs[i]) && xs[i].part.id == xs[j].part.id;
      FirstOf(xs, i);
    }
  }

  /** The run a joining call goes to. */
  function Target(m: Model): nat {
    if m.current.Some? then m.current.value else |m.runs|
  }

  /** A call joined the open run, or a new one. */
  predicate Joined(a: Model, m: Model, id: string) {
    && a.byCall == m.byCall[id := Target(m)] && a.standalone == m.standalone
    && a.current == Some(Target(m)) && a.pendingThinking == []
  }

  /** The run was closed, perhaps by a call that stands alone. */
  predicate Broken(a: Model, m: Model, alone: set<string>) {
    a.byCall == m.byCall && a.standalone == m.standalone + alone && a.current.None? && a.pendingThinking == []
  }

  /** Nothing but some thinking came. */
  predicate Quiet(a: Model, m: Model, thoughts: seq<string>) {
    && a.byCall == m.byCall && a.standalone == m.standalone && a.current == m.current
    && a.pendingThinking == m.pendingThinking + thoughts
  }

  function Thoughts(x: Moment): seq<string> {
    if x.Happens? && x.part.kind == ThinkingPart && Trim(x.part.thinking) != "" then [Trim(x.part.thinking)] else []
  }

  lemma CallEffect(m: Model, part: Part)
    requires Sound(m)
    ensures Joined(AddCall(m, part), m, part.id)
  {
    hide CallsSound, RunSound;
  }

  lemma PartEffect(m: Model, part: Part, ms: Option<int>, folds: Folds)
    requires Sound(m)
    ensures var a := AddPart(m, part, ms, folds);
      if part.kind == ToolCallPart && part.id != "" && part.id !in m.byCall && part.id !in m.standalone then
        if folds(part.name, part.args) then Joined(a, m, part.id) else Broken(a, m, {part.id})
      else if part.kind == TextPart && Trim(part.text) != "" then Broken(a, m, {})
      else Quiet(a, m, Thoughts(Happens(part, ms)))
  {
    hide Sound, Trim, AddCall, Joined, Broken, Quiet, BreakRun, AddThinking;
    match part.kind {
      case ThinkingPart => ThinkingEffect(m, part, ms);
      case TextPart =>
        BreakEffect(m);
        NothingEffect(m);
      case OtherPart => NothingEffect(m);
      case ToolCallPart =>
        CallEffect(m, part);
        AloneEffect(m, part.id);
        NothingEffect(m);
    }
  }

  lemma ThinkingEffect(m: Model, part: Part, ms: Option<int>)
    requires part.kind == ThinkingPart
    ensures Quiet(AddThinking(m, part, ms), m, Thoughts(Happens(part, ms)))
  {
    hide Trim;
  }

  lemma BreakEffect(m: Model)
    ensures Broken(BreakRun(m), m, {})
  {
  }

  lemma AloneEffect(m: Model, id: string)
    ensures Broken(BreakRun(m.(standalone := m.standalone + {id})), m, {id})
  {
  }

  lemma NothingEffect(m: Model)
    ensures Quiet(m, m, [])
  {
    assert m.pendingThinking + [] == m.pendingThinking;
  }

  /** What a moment does to the books of a model, by what kind of moment it is. */
  lemma StepEffect(xs: seq<Moment>, m: Model, folds: Folds)
    requires xs != [] && Sound(m) && Registered(xs[..|xs| - 1], m, folds)
    ensures var n := |xs| - 1;
      var a := Step(m, xs[n], folds);
      if Joins(xs, n, folds) then Joined(a, m, xs[n].part.id)
      else if Breaks(xs, n, folds) then Broken(a, m, if IsCall(xs[n]) then {xs[n].part.id} else {})
      else Quiet(a, m, Thoughts(xs[n]))
  {
    hide Registered, Sound, Trim, NewCall, AddPart, Mark, Joined;
    var n := |xs| - 1;
    if xs[n].Happens? {
      PartEffect(m, xs[n].part, xs[n].ms, folds);
      if IsCall(xs[n]) {
        NewToModel(xs, n, m, folds);
      } else {
        OnlyCallsAreNew(xs, n);
      }
    } else {
      OnlyCallsAreNew(xs, n);
    }
  }

  lemma OnlyCallsAreNew(xs: seq<Moment>, k: nat)
    requires k < |xs|
    ensures NewCall(xs, k) ==> IsCall(xs[k])
  {
  }

  lemma RegisteredStep(xs: seq<Moment>, m: Model, folds: Folds)
    requires xs != [] && Sound(m) && Registered(xs[..|xs| - 1], m, folds)
    ensures Registered(xs, Step(m, xs[|xs| - 1], folds), folds)
  {
    var n := |xs| - 1;
    var a := Step(m, xs[n], folds);
    StepEffect(xs, m, folds);
    hide Step, Sound, Trim;
    forall k | 0 <= k < |xs| && NewCall(xs, k)
      ensures if folds(xs[k].part.name, xs[k].part.args) then xs[k].part.id in a.byCall
        else xs[k].part.id in a.standalone
    {
      if k < n {
        Earlier(xs, n, k, folds);
      }
    }
    forall id | id in a.byCall || id in a.standalone
      ensures exists k :: 0 <= k < |xs| && IsCall(xs[k]) && xs[k].part.id == id
    {
      if id in m.byCall || id in m.standalone {
        var k :| 0 <= k < n && IsCall(xs[..n][k]) && xs[..n][k].part.id == id;
        assert xs[k] == xs[..n][k];
      } else {
        assert IsCall(xs[n]) && xs[n].part.id == id;
      }
    }
  }

  lemma UnbrokenNext(xs: seq<Moment>, i: nat, n: nat, folds: Folds)
    requires i < n < |xs|
    ensures Unbroken(xs, i, n + 1, folds) <==> Unbroken(xs, i, n, folds) && !Breaks(xs, n, folds)
  {
    hide Breaks;
  }

  lemma UnbrokenEarlier(xs: seq<Moment>, i: nat, n: nat, folds: Folds)
    requires n <= |xs|
    ensures Unbroken(xs[..n], i, n, folds) <==> Unbroken(xs, i, n, folds)
  {
    forall k | i < k < n
      ensures Breaks(xs[..n], k, folds) == Breaks(xs, k, folds)
    {
      Earlier(xs, n, k, folds);
    }
    hide Breaks;
  }

  lemma UnbrokenWithin(xs: seq<Moment>, i: nat, j: nat, n: nat, folds: Folds)
    requires j <= n <= |xs|
    ensures Unbroken(xs[..n], i, j, folds) <==> Unbroken(xs, i, j, folds)
  {
    UnbrokenEarlier(xs, i, j, folds);
    UnbrokenEarlier(xs[..n], i, j, folds);
    assert xs[..n][..j] == xs[..j];
  }

  lemma CallPlaced(m: Model, id: string)
    requires Sound(m) && id in m.byCall
    ensures m.byCall[id] < |m.runs|
  {
  }

  /** An earlier call is in the run that a joining call goes to exactly when nothing came between. */
  lemma JoinsUnbroken(xs: seq<Moment>, m: Model, folds: Folds, i: nat)
    requires xs != [] && Sound(m) && Registered(xs[..|xs| - 1], m, folds) && Grouped(xs[..|xs| - 1], m, folds)
    requires i < |xs| - 1 && Joins(xs, i, folds)
    ensures xs[i].part.id in m.byCall
    ensures m.byCall[xs[i].part.id] == Target(m) <==> Unbroken(xs, i, |xs| - 1, folds)
    ensures m.current == Some(m.byCall[xs[i].part.id]) <==> Unbroken(xs, i, |xs| - 1, folds)
  {
    var n := |xs| - 1;
    Earlier(xs, n, i, folds);
    assert xs[..n][i] == xs[i];
    UnbrokenEarlier(xs, i, n, folds);
    CallPlaced(m, xs[i].part.id);
    hide Sound, Joins, Unbroken;
  }

  lemma PairStays(xs: seq<Moment>, m: Model, folds: Folds, i: nat, j: nat)
    requires xs != [] && Registered(xs[..|xs| - 1], m, folds) && Grouped(xs[..|xs| - 1], m, folds)
    requires i < j < |xs| - 1 && Joins(xs, i, folds) && Joins(xs, j, folds)
    ensures xs[i].part.id in m.byCall && xs[j].part.id in m.byCall
    ensures m.byCall[xs[i].part.id] == m.byCall[xs[j].part.id] <==> Unbroken(xs, i, j, folds)
  {
    var n := |xs| - 1;
    Earlier(xs, n, i, folds);
    Earlier(xs, n, j, folds);
    assert xs[..n][i] == xs[i] && xs[..n][j] == xs[j];
    UnbrokenWithin(xs, i, j, n, folds);
    hide Joins, Unbroken;
  }

  lemma OldCallStays(xs: seq<Moment>, m: Model, folds: Folds, i: nat)
    requires xs != [] && Sound(m) && Registered(xs[..|xs| - 1], m, folds)
    requires i < |xs| - 1 && Joins(xs, i, folds) && xs[i].part.id in m.byCall
    ensures var a := Step(m, xs[|xs| - 1], folds);
      xs[i].part.id in a.byCall && a.byCall[xs[i].part.id] == m.byCall[xs[i].part.id]
  {
    StepEffect(xs, m, folds);
    hide Step, Sound, Trim, Registered, Breaks;
  }

  lemma GroupedPairs(xs: seq<Moment>, m: Model, folds: Folds, i: nat, j: nat)
    requires xs != [] && Sound(m) && Registered(xs[..|xs| - 1], m, folds) && Grouped(xs[..|xs| - 1], m, folds)
    requires i < j < |xs| && Joins(xs, i, folds) && Joins(xs, j, folds)
    ensures var a := Step(m, xs[|xs| - 1], folds);
      && xs[i].part.id in a.byCall && xs[j].part.id in a.byCall
      && (a.byCall[xs[i].part.id] == a.byCall[xs[j].part.id] <==> Unbroken(xs, i, j, folds))
  {
    hide Step, Sound, Unbroken, Breaks, Registered, Grouped;
    JoinsUnbroken(xs, m, folds, i);
    OldCallStays(xs, m, folds, i);
    if j < |xs| - 1 {
      PairStays(xs, m, folds, i, j);
      OldCallStays(xs, m, folds, j);
    } else {
      StepEffect(xs, m, folds);
    }
  }

  lemma GroupedCurrent(xs: seq<Moment>, m: Model, folds: Folds, k: nat)
    requires xs != [] && Sound(m) && Registered(xs[..|xs| - 1], m, folds) && Grouped(xs[..|xs| - 1], m, folds)
    requires k < |xs| && Joins(xs, k, folds)
    ensures var a := Step(m, xs[|xs| - 1], folds);
      xs[k].part.id in a.byCall && (a.current == Some(a.byCall[xs[k].part.id]) <==> Unbroken(xs, k, |xs|, folds))
  {
    hide Step, Sound, Unbroken, Breaks, Registered, Grouped, Joins;
    StepEffect(xs, m, folds);
    var n := |xs| - 1;
    if k < n {
      JoinsUnbroken(xs, m, folds, k);
      OldCallStays(xs, m, folds, k);
      UnbrokenNext(xs, k, n, folds);
      JoiningDoesNotBreak(xs, n, folds);
    } else {
      UnbrokenLast(xs, folds);
    }
  }

  lemma GroupedStep(xs: seq<Moment>, m: Model, folds: Folds)
    requires xs != [] && Sound(m) && Registered(xs[..|xs| - 1], m, folds) && Grouped(xs[..|xs| - 1], m, folds)
    ensures Registered(xs, Step(m, xs[|xs| - 1], folds), folds) && Grouped(xs, Step(m, xs[|xs| - 1], folds), folds)
  {
    RegisteredStep(xs, m, folds);
    hide Step, Sound, Unbroken, Breaks, Registered, Joins;
    var a := Step(m, xs[|xs| - 1], folds);
    forall i, j | 0 <= i < j < |xs| && Joins(xs, i, folds) && Joins(xs, j, folds)
      ensures xs[i].part.id in a.byCall && xs[j].part.id in a.byCall
      ensures a.byCall[xs[i].part.id] == a.byCall[xs[j].part.id] <==> Unbroken(xs, i, j, folds)
    {
      GroupedPairs(xs, m, folds, i, j);
    }
    forall k | 0 <= k < |xs| && Joins(xs, k, folds)
      ensures xs[k].part.id in a.byCall
      ensures a.current == Some(a.byCall[xs[k].part.id]) <==> Unbroken(xs, k, |xs|, folds)
    {
      GroupedCurrent(xs, m, folds, k);
    }
  }

  lemma JoiningDoesNotBreak(xs: seq<Moment>, k: nat, folds: Folds)
    requires k < |xs|
    ensures Joins(xs, k, folds) ==> !Breaks(xs, k, folds)
  {
  }

  lemma UnbrokenLast(xs: seq<Moment>, folds: Folds)
    requires xs != []
    ensures Unbroken(xs, |xs| - 1, |xs|, folds)
  {
  }

  lemma {:induction false} FoldGrouped(xs: seq<Moment>, folds: Folds)
    ensures var m := Fold(EMPTY_MODEL, xs, folds); Registered(xs, m, folds) && Grouped(xs, m, folds)
  {
    if xs != [] {
      FoldGrouped(xs[..|xs| - 1], folds);
      FoldSound(xs[..|xs| - 1], folds);
      hide Sound, Step, Registered, Grouped;
      GroupedStep(xs, Fold(EMPTY_MODEL, xs[..|xs| - 1], folds), folds);
    }
  }

  /**
    What runs mean: in whatever a branch holds, two calls that fold are in the same run exactly when
    no prose, no call that stands alone and nothing else drawn came between them.
   */
  lemma RunsAreUnbroken(entries: seq<Entry>, folds: Folds, i: nat, j: nat)
    requires i < j < |BranchMoments(entries)|
    requires Joins(BranchMoments(entries), i, folds) && Joins(BranchMoments(entries), j, folds)
    ensures var m := Load(entries, folds);
      var xs := BranchMoments(entries);
      && xs[i].part.id in m.byCall && xs[j].part.id in m.byCall
      && (m.byCall[xs[i].part.id] == m.byCall[xs[j].part.id] <==> Unbroken(xs, i, j, folds))
  {
    BranchFold(entries, folds);
    FoldGrouped(BranchMoments(entries), folds);
    hide AddEntries, Fold, Unbroken, BranchMoments;
  }
}
