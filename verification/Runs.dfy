/** Runs of exploratory tool calls: what one finished part, message or whole branch does to them. */
module Runs {
  import opened Prelude

  datatype PartType = ThinkingPart | TextPart | ToolCallPart | OtherPart

  /** A missing text, id or name is empty, as the program treats both alike. */
  datatype Part = Part(kind: PartType, text: string, thinking: string, id: string, name: string, args: string)

  datatype RunCall = RunCall(id: string, toolName: string, failed: bool, args: string, thinking: seq<string>)

  datatype ToolRun = ToolRun(id: string, calls: seq<RunCall>, thinkingMs: int, thinkingUnknown: bool)

  datatype Role = Assistant | ToolResult | Custom | OtherRole

  datatype Message = Message(
    role: Role, parts: seq<Part>, toolCallId: string, isError: bool, display: bool, interrupted: bool)

  /** Runs are shared by reference in the program; here calls and the open run refer to them by position. */
  datatype Model = Model(
    runs: seq<ToolRun>,
    byCall: map<string, nat>,
    standalone: set<string>,
    current: Option<nat>,
    pendingMs: int,
    pendingUnknown: bool,
    pendingThinking: seq<string>)

  const EMPTY_MODEL := Model([], map[], {}, None, 0, false, [])

  /** Whether a call of this name and these arguments joins a run. */
  type Folds = (string, string) -> bool

  function ResetThinking(m: Model): Model {
    m.(pendingMs := 0, pendingUnknown := false, pendingThinking := [])
  }

  function BreakRun(m: Model): Model {
    ResetThinking(m.(current := None))
  }

  function AddThinking(m: Model, part: Part, thinkingMs: Option<int>): Model {
    var thought := Trim(part.thinking);
    m.(pendingUnknown := m.pendingUnknown || thinkingMs.None?,
       pendingMs := if thinkingMs.None? then m.pendingMs else m.pendingMs + thinkingMs.value,
       pendingThinking := if thought == "" then m.pendingThinking else m.pendingThinking + [thought])
  }

  /** The open run, or a new one that begins with this call. */
  function OpenRun(m: Model, id: string): (Model, nat) {
    if m.current.Some? && m.current.value < |m.runs| then (m, m.current.value)
    else (m.(runs := m.runs + [ToolRun(id, [], 0, false)], current := Some(|m.runs|)), |m.runs|)
  }

  function AddCall(m: Model, part: Part): Model {
    var (n, r) := OpenRun(m, part.id);
    if r >= |n.runs| then n
    else
      var run := n.runs[r];
      var joined := run.(
        calls := run.calls + [RunCall(part.id, part.name, false, part.args, m.pendingThinking)],
        thinkingMs := run.thinkingMs + m.pendingMs,
        thinkingUnknown := run.thinkingUnknown || m.pendingUnknown);
      ResetThinking(n.(runs := n.runs[r := joined], byCall := n.byCall[part.id := r]))
  }

  /** One finished part of an assistant message, with its thinking time when it was measured. */
  function AddPart(m: Model, part: Part, thinkingMs: Option<int>, folds: Folds): Model {
    match part.kind
    case ThinkingPart => AddThinking(m, part, thinkingMs)
    case TextPart => if Trim(part.text) != "" then BreakRun(m) else m
    case OtherPart => m
    case ToolCallPart =>
      if part.id == "" || part.id in m.byCall || part.id in m.standalone then m
      else if !folds(part.name, part.args) then BreakRun(m.(standalone := m.standalone + {part.id}))
      else AddCall(m, part)
  }

  function AddParts(m: Model, parts: seq<Part>, folds: Folds): Model {
    if parts == [] then m
    else AddPart(AddParts(m, parts[..|parts| - 1], folds), parts[|parts| - 1], None, folds)
  }

  predicate FirstCall(calls: seq<RunCall>, id: string, i: nat) {
    i < |calls| && calls[i].id == id && forall j :: 0 <= j < i ==> calls[j].id != id
  }

  /** The first call of that id is marked. */
  function Mark(calls: seq<RunCall>, id: string, failed: bool): (r: seq<RunCall>)
    ensures |r| == |calls|
    ensures forall i :: 0 <= i < |r| ==>
      r[i] == if FirstCall(calls, id, i) then calls[i].(failed := failed) else calls[i]
  {
    if calls == [] then []
    else if calls[0].id == id then [calls[0].(failed := failed)] + calls[1..]
    else [calls[0]] + Mark(calls[1..], id, failed)
  }

  function SetFailed(m: Model, id: string, failed: bool): Model {
    if id !in m.byCall || m.byCall[id] >= |m.runs| then m
    else
      var r := m.byCall[id];
      m.(runs := m.runs[r := m.runs[r].(calls := Mark(m.runs[r].calls, id, failed))])
  }

  function FailParts(m: Model, parts: seq<Part>): Model {
    if parts == [] then m
    else
      var before, part := FailParts(m, parts[..|parts| - 1]), parts[|parts| - 1];
      if part.kind == ToolCallPart && part.id != "" then SetFailed(before, part.id, true) else before
  }

  /** A message that failed or was aborted shows its calls as failed and ends the run. */
  function EndAssistant(m: Model, message: Message): Model {
    if message.interrupted then BreakRun(FailParts(m, message.parts)) else m
  }

  function AddMessage(m: Model, message: Message, folds: Folds): Model {
    match message.role
    case Assistant => EndAssistant(AddParts(m, message.parts, folds), message)
    case ToolResult => if message.toolCallId != "" then SetFailed(m, message.toolCallId, message.isError) else m
    case Custom => if message.display then BreakRun(m) else m
    case OtherRole => BreakRun(m)
  }

  /** What a session branch holds, as far as runs are concerned. */
  datatype Entry = MessageEntry(message: Message) | DrawnEntry | SilentEntry

  function AddEntries(m: Model, entries: seq<Entry>, folds: Folds): Model {
    if entries == [] then m
    else
      var before := AddEntries(m, entries[..|entries| - 1], folds);
      match entries[|entries| - 1]
      case MessageEntry(message) => AddMessage(before, message, folds)
      case DrawnEntry => BreakRun(before)
      case SilentEntry => before
  }

  function Load(entries: seq<Entry>, folds: Folds): Model {
    BreakRun(AddEntries(EMPTY_MODEL, entries, folds))
  }

  // ---- what every model keeps ----

  ghost predicate CallsSound(m: Model) {
    && (forall r, k :: 0 <= r < |m.runs| && 0 <= k < |m.runs[r].calls| ==>
          m.runs[r].calls[k].id in m.byCall && m.byCall[m.runs[r].calls[k].id] == r)
    && (forall id :: id in m.byCall ==> m.byCall[id] < |m.runs| && HasCall(m.runs[m.byCall[id]], id))
  }

  ghost predicate HasCall(run: ToolRun, id: string) {
    exists k :: 0 <= k < |run.calls| && run.calls[k].id == id
  }

  ghost predicate RunSound(run: ToolRun) {
    && run.calls != [] && run.id == run.calls[0].id
    && (forall j, k :: 0 <= j < k < |run.calls| ==> run.calls[j].id != run.calls[k].id)
  }

  /**
    Every call belongs to one run and stands in it once, a run is named after its first call, no
    call both joins a run and stands alone, and only the last run can be open.
   */
  ghost predicate Sound(m: Model) {
    && CallsSound(m)
    && (forall r :: 0 <= r < |m.runs| ==> RunSound(m.runs[r]))
    && m.byCall.Keys !! m.standalone
    && (m.current.Some? ==> m.current.value + 1 == |m.runs|)
  }

  /** Where the calls of a model stand once one more has joined. */
  lemma AddCallPlaces(m: Model, part: Part)
    requires CallsSound(m) && part.id !in m.byCall && (m.current.Some? ==> m.current.value + 1 == |m.runs|)
    ensures CallsSound(AddCall(m, part))
  {
    var a := AddCall(m, part);
    var r := OpenRun(m, part.id).1;
    var last := |a.runs[r].calls| - 1;
    assert a.runs[r].calls[last].id == part.id;
    forall q, k | 0 <= q < |a.runs| && 0 <= k < |a.runs[q].calls|
      ensures a.runs[q].calls[k].id in a.byCall && a.byCall[a.runs[q].calls[k].id] == q
    {
      if !(q == r && k == last) {
        assert q < |m.runs| && a.runs[q].calls[k] == m.runs[q].calls[k];
      }
    }
    forall id | id in a.byCall
      ensures a.byCall[id] < |a.runs| && HasCall(a.runs[a.byCall[id]], id)
    {
      if id != part.id {
        var k :| 0 <= k < |m.runs[m.byCall[id]].calls| && m.runs[m.byCall[id]].calls[k].id == id;
        assert a.runs[m.byCall[id]].calls[k].id == id;
      }
    }
  }

  lemma AddCallRuns(m: Model, part: Part)
    requires Sound(m) && part.id !in m.byCall
    ensures var a := AddCall(m, part);
      forall q :: 0 <= q < |a.runs| ==> RunSound(a.runs[q])
  {
    var a := AddCall(m, part);
    var r := OpenRun(m, part.id).1;
    if r < |m.runs| {
      assert RunSound(m.runs[r]);
      assert forall k :: 0 <= k < |m.runs[r].calls| ==> m.runs[r].calls[k].id in m.byCall;
    }
    assert RunSound(a.runs[r]);
    assert forall q :: 0 <= q < |a.runs| && q != r ==> a.runs[q] == m.runs[q];
  }

  lemma AddCallSound(m: Model, part: Part)
    requires Sound(m) && part.id !in m.byCall && part.id !in m.standalone
    ensures Sound(AddCall(m, part))
  {
    AddCallPlaces(m, part);
    AddCallRuns(m, part);
    hide CallsSound, RunSound;
  }

  /** Nothing but the thinking that waits for a call. */
  lemma ThinkingSound(m: Model, part: Part, thinkingMs: Option<int>)
    requires Sound(m)
    ensures Sound(AddThinking(m, part, thinkingMs))
  {
    hide RunSound, Trim;
  }

  lemma StandaloneSound(m: Model, id: string)
    requires Sound(m) && id !in m.byCall
    ensures Sound(m.(standalone := m.standalone + {id}))
  {
    hide RunSound;
  }

  lemma AddPartSound(m: Model, part: Part, thinkingMs: Option<int>, folds: Folds)
    requires Sound(m)
    ensures Sound(AddPart(m, part, thinkingMs, folds))
  {
    hide Sound, AddThinking, AddCall, BreakRun;
    match part.kind {
      case ThinkingPart => ThinkingSound(m, part, thinkingMs);
      case TextPart => BreakRunSound(m);
      case OtherPart =>
      case ToolCallPart =>
        if part.id !in m.byCall && part.id !in m.standalone {
          AddCallSound(m, part);
          StandaloneSound(m, part.id);
          BreakRunSound(m.(standalone := m.standalone + {part.id}));
        }
    }
  }

  /** Soundness is about the ids of the calls only. */
  lemma SoundAlike(m: Model, a: Model)
    requires Sound(m) && a.byCall == m.byCall && a.standalone == m.standalone
    requires a.current == m.current && |a.runs| == |m.runs|
    requires forall q :: 0 <= q < |m.runs| ==> SameIds(a.runs[q], m.runs[q])
    ensures Sound(a)
  {
    assert forall q :: 0 <= q < |a.runs| ==> RunSound(m.runs[q]) && SameIds(a.runs[q], m.runs[q]);
    CallsAlike(m, a);
    hide CallsSound;
  }

  lemma CallsAlike(m: Model, a: Model)
    requires CallsSound(m) && a.byCall == m.byCall && |a.runs| == |m.runs|
    requires forall q :: 0 <= q < |m.runs| ==> SameIds(a.runs[q], m.runs[q])
    ensures CallsSound(a)
  {
    forall q, k | 0 <= q < |a.runs| && 0 <= k < |a.runs[q].calls|
      ensures a.runs[q].calls[k].id in a.byCall && a.byCall[a.runs[q].calls[k].id] == q
    {
      assert SameIds(a.runs[q], m.runs[q]) && a.runs[q].calls[k].id == m.runs[q].calls[k].id;
    }
    forall i | i in a.byCall
      ensures a.byCall[i] < |a.runs| && HasCall(a.runs[a.byCall[i]], i)
    {
      var k :| 0 <= k < |m.runs[m.byCall[i]].calls| && m.runs[m.byCall[i]].calls[k].id == i;
      assert SameIds(a.runs[m.byCall[i]], m.runs[m.byCall[i]]);
      assert a.runs[m.byCall[i]].calls[k].id == i;
    }
  }

  lemma SetFailedSound(m: Model, id: string, failed: bool)
    requires Sound(m)
    ensures Sound(SetFailed(m, id, failed))
  {
    hide Sound, Mark;
    SoundAlike(m, SetFailed(m, id, failed));
  }

  ghost predicate SameIds(a: ToolRun, b: ToolRun) {
    a.id == b.id && |a.calls| == |b.calls| && forall k :: 0 <= k < |a.calls| ==> a.calls[k].id == b.calls[k].id
  }

  lemma {:induction false} AddPartsSound(m: Model, parts: seq<Part>, folds: Folds)
    requires Sound(m)
    ensures Sound(AddParts(m, parts, folds))
  {
    hide Sound, AddPart;
    if parts != [] {
      AddPartsSound(m, parts[..|parts| - 1], folds);
      AddPartSound(AddParts(m, parts[..|parts| - 1], folds), parts[|parts| - 1], None, folds);
    }
  }

  lemma {:induction false} FailPartsSound(m: Model, parts: seq<Part>)
    requires Sound(m)
    ensures Sound(FailParts(m, parts))
  {
    hide Sound, SetFailed;
    if parts != [] {
      FailPartsSound(m, parts[..|parts| - 1]);
      SetFailedSound(FailParts(m, parts[..|parts| - 1]), parts[|parts| - 1].id, true);
    }
  }

  lemma BreakRunSound(m: Model)
    requires Sound(m)
    ensures Sound(BreakRun(m))
  {
  }

  lemma AddMessageSound(m: Model, message: Message, folds: Folds)
    requires Sound(m)
    ensures Sound(AddMessage(m, message, folds))
  {
    hide Sound, BreakRun, SetFailed, AddParts, FailParts;
    BreakRunSound(m);
    SetFailedSound(m, message.toolCallId, message.isError);
    AddPartsSound(m, message.parts, folds);
    var all := AddParts(m, message.parts, folds);
    FailPartsSound(all, message.parts);
    BreakRunSound(FailParts(all, message.parts));
  }

  /** Loading any branch gives sound runs, all of them closed. */
  lemma {:induction false} LoadSound(entries: seq<Entry>, folds: Folds)
    ensures Sound(AddEntries(EMPTY_MODEL, entries, folds))
    ensures Sound(Load(entries, folds)) && Load(entries, folds).current.None?
  {
    if entries != [] {
      LoadSound(entries[..|entries| - 1], folds);
      var before := AddEntries(EMPTY_MODEL, entries[..|entries| - 1], folds);
      match entries[|entries| - 1] {
        case MessageEntry(message) => AddMessageSound(before, message, folds);
        case DrawnEntry => BreakRunSound(before);
        case SilentEntry =>
      }
    }
    BreakRunSound(AddEntries(EMPTY_MODEL, entries, folds));
  }

  /** The row that draws a run's line: the row of its first call. */
  predicate DrawsHeader(m: Model, id: string) {
    && id in m.byCall && m.byCall[id] < |m.runs|
    && m.runs[m.byCall[id]].calls != [] && m.runs[m.byCall[id]].calls[0].id == id
  }

  /** Every run's line is drawn by exactly one of its rows. */
  lemma OneHeaderPerRun(m: Model, r: nat)
    requires Sound(m) && r < |m.runs|
    ensures DrawsHeader(m, m.runs[r].id) && m.byCall[m.runs[r].id] == r
    ensures forall id :: DrawsHeader(m, id) && m.byCall[id] == r ==> id == m.runs[r].id
  {
    assert RunSound(m.runs[r]);
  }
}
