/** Each call as it is drawn: its name, arguments and thinking, whether it failed, and where it comes. */
module RunsCalls {
  import opened Prelude
  import opened Runs
  import opened RunsMeaning

  // ---- the calls ----

  ghost predicate CallIs(m: Model, call: RunCall) {
    call.id in m.byCall && m.byCall[call.id] < |m.runs| && call in m.runs[m.byCall[call.id]].calls
  }

  predicate MarksCall(x: Moment, id: string) {
    x.Marks? && x.id == id
  }

  /** The last thing said of that call after position k is that it failed. */
  ghost predicate FailedSince(xs: seq<Moment>, k: nat, id: string) {
    exists i :: k < i < |xs| && xs[i] == Marks(id, true) && SaidLast(xs, i, id)
  }

  ghost predicate SaidLast(xs: seq<Moment>, i: nat, id: string) {
    forall j :: i < j < |xs| ==> !MarksCall(xs[j], id)
  }

  /** The call at position k as it is drawn after all that happened. */
  ghost function CallAt(xs: seq<Moment>, k: nat, folds: Folds): RunCall
    requires k < |xs| && IsCall(xs[k])
  {
    var part := xs[k].part;
    RunCall(part.id, part.name, FailedSince(xs, k, part.id), part.args, Pending(xs[..k], folds))
  }

  ghost predicate Recorded(xs: seq<Moment>, m: Model, folds: Folds) {
    && m.pendingThinking == Pending(xs, folds)
    && forall k :: 0 <= k < |xs| && Joins(xs, k, folds) ==> CallIs(m, CallAt(xs, k, folds))
  }

  lemma JoiningKeepsCall(m: Model, part: Part, call: RunCall)
    requires Sound(m) && CallIs(m, call) && part.id != call.id
    ensures CallIs(AddCall(m, part), call)
  {
    var r := m.byCall[call.id];
    var c :| 0 <= c < |m.runs[r].calls| && m.runs[r].calls[c] == call;
    var a := AddCall(m, part);
    assert a.byCall[call.id] == r && a.runs[r].calls[c] == m.runs[r].calls[c];
  }

  lemma JoiningCallIs(m: Model, part: Part)
    requires Sound(m)
    ensures CallIs(AddCall(m, part), RunCall(part.id, part.name, false, part.args, m.pendingThinking))
  {
    var a := AddCall(m, part);
    var r := a.byCall[part.id];
    assert a.runs[r].calls[|a.runs[r].calls| - 1].id == part.id;
  }

  lemma MarkedAt(run: ToolRun, mark: string, failed: bool, call: RunCall)
    requires RunSound(run) && call in run.calls
    ensures (if mark == call.id then call.(failed := failed) else call) in Mark(run.calls, mark, failed)
  {
    var c :| 0 <= c < |run.calls| && run.calls[c] == call;
    assert FirstCall(run.calls, call.id, c);
    assert Mark(run.calls, mark, failed)[c] == if mark == call.id then call.(failed := failed) else call;
  }

  /** What is said of a call is kept with that call alone. */
  lemma MarkingIs(m: Model, mark: string, failed: bool, call: RunCall)
    requires Sound(m) && CallIs(m, call)
    ensures CallIs(SetFailed(m, mark, failed), if mark == call.id then call.(failed := failed) else call)
  {
    MarkedAt(m.runs[m.byCall[call.id]], mark, failed, call);
    if mark != call.id && mark in m.byCall && m.byCall[mark] != m.byCall[call.id] {
      assert SetFailed(m, mark, failed).runs[m.byCall[call.id]] == m.runs[m.byCall[call.id]];
    }
    hide Mark, RunSound, CallsSound;
  }

  /** A part adds a call of its own, or leaves all calls alone. */
  lemma PartOrCall(m: Model, part: Part, ms: Option<int>, folds: Folds)
    ensures var a := AddPart(m, part, ms, folds);
      (a.runs == m.runs && a.byCall == m.byCall) || (a == AddCall(m, part) && part.id !in m.byCall)
  {
    hide AddCall, Trim;
  }

  /** A call stays as it is whatever happens, but for what is said of it. */
  lemma StepKeepsCall(m: Model, x: Moment, folds: Folds, call: RunCall)
    requires Sound(m) && CallIs(m, call)
    ensures CallIs(Step(m, x, folds), if MarksCall(x, call.id) then call.(failed := x.failed) else call)
  {
    match x {
      case Marks(mark, failed) => MarkingIs(m, mark, failed, call);
      case Cut =>
      case Happens(part, ms) =>
        PartOrCall(m, part, ms, folds);
        if part.id != call.id {
          JoiningKeepsCall(m, part, call);
        }
    }
    hide Sound, AddCall, AddPart, SetFailed;
  }

  /** A joining call takes the thinking that waits. */
  lemma JoiningTakesThinking(xs: seq<Moment>, m: Model, folds: Folds)
    requires xs != [] && Sound(m) && Registered(xs[..|xs| - 1], m, folds) && Joins(xs, |xs| - 1, folds)
    ensures var part := xs[|xs| - 1].part;
      CallIs(Step(m, xs[|xs| - 1], folds), RunCall(part.id, part.name, false, part.args, m.pendingThinking))
  {
    var n := |xs| - 1;
    NewToModel(xs, n, m, folds);
    JoiningCallIs(m, xs[n].part);
    hide AddCall, CallIs, Registered, Sound;
  }

  lemma PendingNext(xs: seq<Moment>, m: Model, folds: Folds)
    requires xs != [] && Sound(m) && Registered(xs[..|xs| - 1], m, folds)
    requires m.pendingThinking == Pending(xs[..|xs| - 1], folds)
    ensures Step(m, xs[|xs| - 1], folds).pendingThinking == Pending(xs, folds)
  {
    StepEffect(xs, m, folds);
    hide Step, Sound, Registered, Trim, Joins, Breaks;
  }

  lemma FailedNext(xs: seq<Moment>, k: nat, id: string)
    requires k < |xs| - 1
    ensures var n := |xs| - 1;
      FailedSince(xs, k, id) <==> if MarksCall(xs[n], id) then xs[n].failed else FailedSince(xs[..n], k, id)
  {
    var n := |xs| - 1;
    if MarksCall(xs[n], id) {
      if xs[n].failed {
        assert xs[n] == Marks(id, true) && SaidLast(xs, n, id);
      }
    } else if FailedSince(xs, k, id) {
      var i :| k < i < |xs| && xs[i] == Marks(id, true) && SaidLast(xs, i, id);
      assert xs[..n][i] == Marks(id, true) && SaidLast(xs[..n], i, id);
    } else if FailedSince(xs[..n], k, id) {
      var i :| k < i < n && xs[..n][i] == Marks(id, true) && SaidLast(xs[..n], i, id);
      assert xs[i] == Marks(id, true);
      assert forall j :: i < j < n ==> xs[..n][j] == xs[j];
      assert SaidLast(xs, i, id);
    }
  }

  lemma RecordedAt(xs: seq<Moment>, m: Model, folds: Folds, k: nat)
    requires xs != [] && Sound(m) && Registered(xs[..|xs| - 1], m, folds) && Recorded(xs[..|xs| - 1], m, folds)
    requires k < |xs| && Joins(xs, k, folds)
    ensures CallIs(Step(m, xs[|xs| - 1], folds), CallAt(xs, k, folds))
  {
    hide Step, Sound, Registered, CallIs, NewCall, Pending, FailedSince;
    var n := |xs| - 1;
    if k < n {
      Earlier(xs, n, k, folds);
      assert xs[..n][..k] == xs[..k] && xs[..n][k] == xs[k];
      StepKeepsCall(m, xs[n], folds, CallAt(xs[..n], k, folds));
      FailedNext(xs, k, xs[k].part.id);
    } else {
      JoiningTakesThinking(xs, m, folds);
      NothingSaidYet(xs, xs[n].part.id);
    }
  }

  lemma NothingSaidYet(xs: seq<Moment>, id: string)
    requires xs != []
    ensures !FailedSince(xs, |xs| - 1, id)
  {
  }

  lemma RecordedStep(xs: seq<Moment>, m: Model, folds: Folds)
    requires xs != [] && Sound(m) && Registered(xs[..|xs| - 1], m, folds) && Recorded(xs[..|xs| - 1], m, folds)
    ensures Recorded(xs, Step(m, xs[|xs| - 1], folds), folds)
  {
    hide Step, Sound, Registered, CallIs, NewCall, Pending, FailedSince;
    PendingNext(xs, m, folds);
    forall k | 0 <= k < |xs| && Joins(xs, k, folds)
      ensures CallIs(Step(m, xs[|xs| - 1], folds), CallAt(xs, k, folds))
    {
      RecordedAt(xs, m, folds, k);
    }
  }

  lemma {:induction false} FoldRecorded(xs: seq<Moment>, folds: Folds)
    ensures Recorded(xs, Fold(EMPTY_MODEL, xs, folds), folds)
  {
    if xs != [] {
      FoldRecorded(xs[..|xs| - 1], folds);
      FoldGrouped(xs[..|xs| - 1], folds);
      FoldSound(xs[..|xs| - 1], folds);
      hide Sound, Step, Registered, Grouped, Recorded;
      RecordedStep(xs, Fold(EMPTY_MODEL, xs[..|xs| - 1], folds), folds);
    }
  }

  lemma Closed(m: Model)
    ensures BreakRun(m).runs == m.runs && BreakRun(m).byCall == m.byCall
  {
  }

  /**
    A call that folds stands with its own name and arguments, with exactly the thinking since the call or
    break before it, each thought trimmed, and as failed exactly when that was said of it last.
   */
  lemma CallsFollow(entries: seq<Entry>, folds: Folds, k: nat)
    requires k < |BranchMoments(entries)| && Joins(BranchMoments(entries), k, folds)
    ensures CallIs(Load(entries, folds), CallAt(BranchMoments(entries), k, folds))
  {
    BranchFold(entries, folds);
    FoldRecorded(BranchMoments(entries), folds);
    Closed(AddEntries(EMPTY_MODEL, entries, folds));
    hide AddEntries, Fold, CallAt, BranchMoments, BreakRun;
  }

  // ---- what a branch says of a call ----

  predicate CallsId(parts: seq<Part>, id: string) {
    exists i :: 0 <= i < |parts| && parts[i].kind == ToolCallPart && parts[i].id == id
  }

  /** A tool result says how its call went, and a message that failed or was aborted says that all its calls failed. */
  function Verdict(entry: Entry, id: string): Option<bool> {
    match entry
    case MessageEntry(message) =>
      if message.role == ToolResult && message.toolCallId == id then Some(message.isError)
      else if message.role == Assistant && message.interrupted && CallsId(message.parts, id) then Some(true)
      else None
    case _ => None
  }

  /** What is said of that call last. */
  function LastVerdict(entries: seq<Entry>, id: string): Option<bool> {
    if entries == [] then None
    else
      var n := |entries| - 1;
      if Verdict(entries[n], id).Some? then Verdict(entries[n], id) else LastVerdict(entries[..n], id)
  }

  function LastMark(xs: seq<Moment>, id: string): Option<bool> {
    if xs == [] then None
    else if MarksCall(xs[|xs| - 1], id) then Some(xs[|xs| - 1].failed)
    else LastMark(xs[..|xs| - 1], id)
  }

  lemma {:induction false} LastMarkAppend(a: seq<Moment>, b: seq<Moment>, id: string)
    ensures LastMark(a + b, id) == if LastMark(b, id).Some? then LastMark(b, id) else LastMark(a, id)
  {
    if b == [] {
      assert a + b == a;
    } else {
      assert (a + b)[..|a + b| - 1] == a + b[..|b| - 1];
      LastMarkAppend(a, b[..|b| - 1], id);
    }
  }

  lemma {:induction false} NoMarks(xs: seq<Moment>, id: string)
    requires forall i :: 0 <= i < |xs| ==> !MarksCall(xs[i], id)
    ensures LastMark(xs, id).None?
  {
    if xs != [] {
      NoMarks(xs[..|xs| - 1], id);
    }
  }

  lemma CallsLast(parts: seq<Part>, id: string)
    requires parts != []
    ensures var part := parts[|parts| - 1];
      CallsId(parts, id) <==> CallsId(parts[..|parts| - 1], id) || (part.kind == ToolCallPart && part.id == id)
  {
    var n := |parts| - 1;
    if i :| 0 <= i < |parts| && parts[i].kind == ToolCallPart && parts[i].id == id {
      assert i < n ==> parts[..n][i] == parts[i];
    }
    if i :| 0 <= i < n && parts[..n][i].kind == ToolCallPart && parts[..n][i].id == id {
      assert parts[i] == parts[..n][i];
    }
  }

  lemma {:induction false} FailMarks(parts: seq<Part>, id: string)
    requires id != ""
    ensures LastMark(FailMoments(parts), id) == if CallsId(parts, id) then Some(true) else None
  {
    if parts != [] {
      var init, part := parts[..|parts| - 1], parts[|parts| - 1];
      FailMarks(init, id);
      CallsLast(parts, id);
      LastMarkAppend(FailMoments(init), [Marks(part.id, true)], id);
      assert FailMoments(init) + [] == FailMoments(init);
      assert [Marks(part.id, true)][..0] == [];
    }
  }

  lemma AssistantMarks(message: Message, id: string)
    requires id != "" && message.role == Assistant
    ensures LastMark(MessageMoments(message), id) ==
      if message.interrupted && CallsId(message.parts, id) then Some(true) else None
  {
    hide FailMoments, CallsId, LastMark;
    var parts, fails := PartMoments(message.parts), FailMoments(message.parts);
    NoMarks(parts, id);
    NoMarks([Cut], id);
    NoMarks([], id);
    FailMarks(message.parts, id);
    LastMarkAppend(fails, [Cut], id);
    LastMarkAppend(parts, fails + [Cut], id);
    LastMarkAppend(parts, [], id);
  }

  lemma MessageMarks(message: Message, id: string)
    requires id != ""
    ensures LastMark(MessageMoments(message), id) == Verdict(MessageEntry(message), id)
  {
    hide FailMoments, PartMoments, CallsId;
    NoMarks([Cut], id);
    NoMarks([], id);
    var said := [Marks(message.toolCallId, message.isError)];
    assert said[..0] == [];
    assert MarksCall(said[0], id) <==> message.toolCallId == id;
    if message.role == Assistant {
      AssistantMarks(message, id);
      hide LastMark, MessageMoments;
    }
  }

  lemma EntryMarks(entry: Entry, id: string)
    requires id != ""
    ensures LastMark(EntryMoments(entry), id) == Verdict(entry, id)
  {
    NoMarks([Cut], id);
    match entry {
      case MessageEntry(message) => MessageMarks(message, id);
      case _ =>
    }
    hide MessageMoments;
  }

  lemma {:induction false} MomentsAppend(a: seq<Entry>, b: seq<Entry>)
    ensures BranchMoments(a + b) == BranchMoments(a) + BranchMoments(b)
  {
    hide EntryMoments;
    if b == [] {
      assert a + b == a;
    } else {
      assert (a + b)[..|a + b| - 1] == a + b[..|b| - 1];
      MomentsAppend(a, b[..|b| - 1]);
    }
  }

  lemma {:induction false} BranchMarks(entries: seq<Entry>, id: string)
    requires id != ""
    ensures LastMark(BranchMoments(entries), id) == LastVerdict(entries, id)
  {
    if entries != [] {
      var n := |entries| - 1;
      BranchMarks(entries[..n], id);
      EntryMarks(entries[n], id);
      LastMarkAppend(BranchMoments(entries[..n]), EntryMoments(entries[n]), id);
    }
    hide Verdict, EntryMoments;
  }

  lemma {:induction false} SinceIsLast(xs: seq<Moment>, k: nat, id: string)
    requires k < |xs|
    ensures FailedSince(xs, k, id) <==> LastMark(xs[k + 1..], id) == Some(true)
  {
    if k < |xs| - 1 {
      SinceIsLast(xs[..|xs| - 1], k, id);
      FailedNext(xs, k, id);
      assert xs[k + 1..][..|xs[k + 1..]| - 1] == xs[..|xs| - 1][k + 1..];
    }
    hide SaidLast;
  }

  lemma CallsComeFirst(entry: Entry, j: nat, id: string)
    requires j < |EntryMoments(entry)| && EntryMoments(entry)[j].Happens?
    ensures LastMark(EntryMoments(entry)[..j + 1], id).None?
  {
    hide LastMark;
    if entry.MessageEntry? && entry.message.role == Assistant {
      FailsAreNoParts(entry.message.parts);
    }
    hide FailMoments;
    NoMarks(EntryMoments(entry)[..j + 1], id);
  }

  lemma {:induction false} FailsAreNoParts(parts: seq<Part>)
    ensures forall i :: 0 <= i < |FailMoments(parts)| ==> !FailMoments(parts)[i].Happens?
  {
    if parts != [] {
      FailsAreNoParts(parts[..|parts| - 1]);
    }
  }

  lemma OneEntry(entry: Entry)
    ensures BranchMoments([entry]) == EntryMoments(entry)
  {
    assert [entry][..0] == [];
    hide EntryMoments;
  }

  lemma MomentsAround(before: seq<Entry>, entry: Entry, after: seq<Entry>)
    ensures BranchMoments(before + [entry] + after)
      == BranchMoments(before) + EntryMoments(entry) + BranchMoments(after)
    ensures BranchMoments([entry] + after) == EntryMoments(entry) + BranchMoments(after)
  {
    hide EntryMoments, BranchMoments;
    OneEntry(entry);
    MomentsAppend(before, [entry]);
    MomentsAppend(before + [entry], after);
    MomentsAppend([entry], after);
  }

  lemma MarksFrom(before: seq<Moment>, own: seq<Moment>, later: seq<Moment>, k: nat, id: string)
    requires |before| <= k < |before + own| && LastMark(own[..k - |before| + 1], id).None?
    ensures LastMark((before + own + later)[k + 1..], id) == LastMark(own + later, id)
  {
    var j := k - |before| + 1;
    assert (before + own + later)[k + 1..] == own[j..] + later;
    assert own + later == own[..j] + (own[j..] + later);
    LastMarkAppend(own[..j], own[j..] + later, id);
  }

  /**
    A call of an entry is drawn as failed exactly when the last entry from there on that says how it went
    says so: a tool result with an error, or a message with that call that failed or was aborted.
   */
  lemma FailedAsSaid(before: seq<Entry>, entry: Entry, after: seq<Entry>, j: nat)
    requires j < |EntryMoments(entry)| && IsCall(EntryMoments(entry)[j])
    ensures var xs, k := BranchMoments(before + [entry] + after), |BranchMoments(before)| + j;
      var id := EntryMoments(entry)[j].part.id;
      && k < |xs| && xs[k] == EntryMoments(entry)[j]
      && (FailedSince(xs, k, id) <==> LastVerdict([entry] + after, id) == Some(true))
  {
    hide BranchMoments, FailedSince, EntryMoments, LastMark, LastVerdict;
    MomentsAround(before, entry, after);
    var xs, k := BranchMoments(before + [entry] + after), |BranchMoments(before)| + j;
    var id := EntryMoments(entry)[j].part.id;
    CallsComeFirst(entry, j, id);
    MarksFrom(BranchMoments(before), EntryMoments(entry), BranchMoments(after), k, id);
    SinceIsLast(xs, k, id);
    BranchMarks([entry] + after, id);
  }

  /** Something is drawn between tool calls that ends a run whatever it holds. */
  predicate CutsRun(entry: Entry) {
    match entry
    case MessageEntry(message) =>
      || message.role == OtherRole || (message.role == Custom && message.display)
      || (message.role == Assistant && message.interrupted)
    case DrawnEntry => true
    case SilentEntry => false
  }

  /** What an entry does: its parts happen in order if it is an assistant's, and then the run is cut if it cuts runs. */
  lemma EntryMeans(entry: Entry)
    ensures var xs := EntryMoments(entry);
      && (CutsRun(entry) <==> xs != [] && xs[|xs| - 1] == Cut)
      && (forall i :: 0 <= i < |xs| - 1 ==> xs[i] != Cut)
      && (entry.MessageEntry? && entry.message.role == Assistant ==>
            |entry.message.parts| <= |xs|
            && forall i :: 0 <= i < |entry.message.parts| ==> xs[i] == Happens(entry.message.parts[i], None))
      && (!(entry.MessageEntry? && entry.message.role == Assistant) ==> forall i :: 0 <= i < |xs| ==> !xs[i].Happens?)
  {
    if entry.MessageEntry? {
      FailsOnlyMark(entry.message.parts);
    }
    hide FailMoments;
  }

  lemma {:induction false} FailsOnlyMark(parts: seq<Part>)
    ensures forall i :: 0 <= i < |FailMoments(parts)| ==> FailMoments(parts)[i].Marks?
  {
    if parts != [] {
      FailsOnlyMark(parts[..|parts| - 1]);
    }
  }

  // ---- the order of calls ----

  function Ids(calls: seq<RunCall>): seq<string> {
    seq(|calls|, i requires 0 <= i < |calls| => calls[i].id)
  }

  /** The calls of all runs, one run after the other. */
  function AllIds(runs: seq<ToolRun>): seq<string> {
    if runs == [] then [] else AllIds(runs[..|runs| - 1]) + Ids(runs[|runs| - 1].calls)
  }

  /** The calls that joined a run, as they came. */
  function JoiningIds(xs: seq<Moment>, folds: Folds): seq<string> {
    if xs == [] then []
    else
      var n := |xs| - 1;
      JoiningIds(xs[..n], folds) + if Joins(xs, n, folds) then [xs[n].part.id] else []
  }

  lemma {:induction false} AllIdsAlike(a: seq<ToolRun>, b: seq<ToolRun>)
    requires |a| == |b| && forall r :: 0 <= r < |a| ==> SameIds(a[r], b[r])
    ensures AllIds(a) == AllIds(b)
  {
    if a != [] {
      var n := |a| - 1;
      AllIdsAlike(a[..n], b[..n]);
      assert SameIds(a[n], b[n]);
    }
  }

  lemma JoiningComesLast(m: Model, part: Part)
    requires Sound(m)
    ensures AllIds(AddCall(m, part).runs) == AllIds(m.runs) + [part.id]
  {
    hide CallsSound, RunSound;
    var a, n := AddCall(m, part), |m.runs|;
    if m.current.Some? {
      assert a.runs[..n - 1] == m.runs[..n - 1];
      assert Ids(a.runs[n - 1].calls) == Ids(m.runs[n - 1].calls) + [part.id];
    } else {
      assert a.runs[..n] == m.runs;
      assert Ids(a.runs[n].calls) == [part.id];
    }
  }

  lemma MarkingKeepsIds(m: Model, id: string, failed: bool)
    ensures AllIds(SetFailed(m, id, failed).runs) == AllIds(m.runs)
  {
    AllIdsAlike(SetFailed(m, id, failed).runs, m.runs);
  }

  lemma PartJoins(m: Model, part: Part, ms: Option<int>, folds: Folds)
    ensures var a := AddPart(m, part, ms, folds);
      if part.kind == ToolCallPart && part.id != "" && part.id !in m.byCall && part.id !in m.standalone
        && folds(part.name, part.args)
      then a == AddCall(m, part) else a.runs == m.runs
  {
    hide AddCall, Trim;
  }

  /** All calls that join stand in the runs, in the order in which they came. */
  lemma {:induction false} FoldInOrder(xs: seq<Moment>, folds: Folds)
    ensures AllIds(Fold(EMPTY_MODEL, xs, folds).runs) == JoiningIds(xs, folds)
  {
    if xs != [] {
      var n := |xs| - 1;
      var m := Fold(EMPTY_MODEL, xs[..n], folds);
      FoldInOrder(xs[..n], folds);
      FoldGrouped(xs[..n], folds);
      FoldSound(xs[..n], folds);
      hide Sound, Registered, Grouped, AddPart, SetFailed, AllIds, NewCall;
      match xs[n] {
        case Happens(part, ms) =>
          PartJoins(m, part, ms, folds);
          JoiningComesLast(m, part);
          if IsCall(xs[n]) {
            NewToModel(xs, n, m, folds);
          }
        case Cut => Closed(m);
        case Marks(id, failed) => MarkingKeepsIds(m, id, failed);
      }
    }
  }

  lemma CallsInOrder(entries: seq<Entry>, folds: Folds)
    ensures AllIds(Load(entries, folds).runs) == JoiningIds(BranchMoments(entries), folds)
  {
    BranchFold(entries, folds);
    FoldInOrder(BranchMoments(entries), folds);
    Closed(AddEntries(EMPTY_MODEL, entries, folds));
    hide AddEntries, Fold, BranchMoments, AllIds, JoiningIds, BreakRun;
  }
}
