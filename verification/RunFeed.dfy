/** Feeding a message while it streams leaves the same runs as adding it when it is finished. */
module RunFeed {
  import opened Prelude
  import opened Runs

  // ---- the same but for times ----

  ghost predicate SameRun(a: ToolRun, b: ToolRun) {
    a.id == b.id && a.calls == b.calls
  }

  /** The same runs, calls, call thinking, open run and waiting thinking; only times may differ. */
  ghost predicate Same(a: Model, b: Model) {
    && |a.runs| == |b.runs| && (forall r :: 0 <= r < |a.runs| ==> SameRun(a.runs[r], b.runs[r]))
    && a.byCall == b.byCall && a.standalone == b.standalone && a.current == b.current
    && a.pendingThinking == b.pendingThinking
  }

  /** A part and a later version of it that changes a model alike: it is final, or it is prose already begun. */
  ghost predicate SameEffect(p: Part, q: Part) {
    p == q || (p.kind == TextPart && q.kind == TextPart && Trim(p.text) != "" && Trim(q.text) != "")
  }

  lemma AddCallSame(a: Model, b: Model, p: Part)
    requires Same(a, b)
    ensures Same(AddCall(a, p), AddCall(b, p))
  {
    var (x, r) := OpenRun(a, p.id);
    var (y, q) := OpenRun(b, p.id);
    assert r == q && |x.runs| == |y.runs|;
    assert forall i :: 0 <= i < |x.runs| ==> SameRun(x.runs[i], y.runs[i]);
  }

  lemma AddPartSame(a: Model, b: Model, p: Part, q: Part, ms: Option<int>, ns: Option<int>, folds: Folds)
    requires Same(a, b) && SameEffect(p, q)
    ensures Same(AddPart(a, p, ms, folds), AddPart(b, q, ns, folds))
  {
    hide AddCall;
    if p.kind == ToolCallPart {
      AddCallSame(a, b, p);
    }
  }

  lemma SetFailedSame(a: Model, b: Model, id: string, failed: bool)
    requires Same(a, b)
    ensures Same(SetFailed(a, id, failed), SetFailed(b, id, failed))
  {
    assert forall r :: 0 <= r < |a.runs| ==> SameRun(a.runs[r], b.runs[r]);
  }

  lemma {:induction false} FailPartsSame(a: Model, b: Model, parts: seq<Part>)
    requires Same(a, b)
    ensures Same(FailParts(a, parts), FailParts(b, parts))
  {
    hide Same, SetFailed;
    if parts != [] {
      var init := parts[..|parts| - 1];
      FailPartsSame(a, b, init);
      SetFailedSame(FailParts(a, init), FailParts(b, init), parts[|parts| - 1].id, true);
    }
  }

  lemma EndAssistantSame(a: Model, b: Model, message: Message)
    requires Same(a, b)
    ensures Same(EndAssistant(a, message), EndAssistant(b, message))
  {
    hide FailParts;
    FailPartsSame(a, b, message.parts);
  }

  /** Finished parts, each with its thinking time when it was measured. */
  function AddTimed(m: Model, parts: seq<Part>, times: seq<Option<int>>, folds: Folds): Model
    requires |times| == |parts|
  {
    if parts == [] then m
    else
      var n := |parts| - 1;
      AddPart(AddTimed(m, parts[..n], times[..n], folds), parts[n], times[n], folds)
  }

  lemma {:induction false} TimedSame(m: Model, parts: seq<Part>, times: seq<Option<int>>, folds: Folds)
    requires |times| == |parts|
    ensures Same(AddTimed(m, parts, times, folds), AddParts(m, parts, folds))
  {
    hide AddPart, Same;
    if parts == [] {
      SameItself(m);
    } else {
      var n := |parts| - 1;
      TimedSame(m, parts[..n], times[..n], folds);
      AddPartSame(AddTimed(m, parts[..n], times[..n], folds), AddParts(m, parts[..n], folds), parts[n], parts[n],
                  times[n], None, folds);
    }
  }

  lemma SameItself(m: Model)
    ensures Same(m, m)
  {
  }

  /** A part that changes a model alike leaves exactly the same model. */
  lemma EffectExact(m: Model, p: Part, q: Part, ms: Option<int>, folds: Folds)
    requires SameEffect(p, q)
    ensures AddPart(m, p, ms, folds) == AddPart(m, q, ms, folds)
  {
    hide AddCall, Trim;
  }

  // ---- the stream ----

  datatype EventType = ThinkingStart | ThinkingEnd | OtherEnd | TextDelta | OtherEvent

  /** A stream event: which part it is about, if any, the time, and the message's parts so far. */
  datatype Event = Event(kind: EventType, contentIndex: Option<nat>, now: int, parts: seq<Part>)

  function Min(a: nat, b: nat): nat {
    if a < b then a else b
  }

  predicate Ends(e: Event) {
    e.kind == ThinkingEnd || e.kind == OtherEnd
  }

  /** Everything before the part an event is about is final, so is that part once it ends, and its text only grows. */
  ghost predicate StreamOf(e: Event, final: seq<Part>) {
    e.contentIndex.Some? ==>
      var i := e.contentIndex.value;
      && Min(i, |e.parts|) <= |final| && e.parts[..Min(i, |e.parts|)] == final[..Min(i, |e.parts|)]
      && (Ends(e) && i < |e.parts| ==> i < |final| && e.parts[i] == final[i])
      && (e.kind == TextDelta && i < |e.parts| ==>
            i < |final| && e.parts[i].kind == TextPart && final[i].kind == TextPart && e.parts[i].text <= final[i].text)
  }

  /** A text part that already says something. */
  predicate Spoken(e: Event) {
    && e.kind == TextDelta && e.contentIndex.Some? && e.contentIndex.value < |e.parts|
    && Trim(e.parts[e.contentIndex.value].text) != ""
  }

  /** The first `upto` parts change a model as the final ones do. */
  ghost predicate Reaches(parts: seq<Part>, upto: nat, final: seq<Part>) {
    forall j :: 0 <= j < upto && j < |parts| ==> j < |final| && SameEffect(parts[j], final[j])
  }

  lemma GrownText(p: Part, q: Part)
    requires p.kind == TextPart && q.kind == TextPart && p.text <= q.text && Trim(p.text) != ""
    ensures SameEffect(p, q)
  {
    var i :| 0 <= i < |p.text| && !IsSpace(p.text[i]);
    assert !IsSpace(q.text[i]);
  }

  /** The parts an event lets the feed reach already do what the final ones will do. */
  lemma EventReaches(e: Event, final: seq<Part>)
    requires StreamOf(e, final) && e.contentIndex.Some?
    ensures Reaches(e.parts, e.contentIndex.value, final)
    ensures Ends(e) ==> Reaches(e.parts, e.contentIndex.value + 1, final)
    ensures Spoken(e) ==> Reaches(e.parts, e.contentIndex.value + 1, final)
  {
    hide Trim;
    var parts, i := e.parts, e.contentIndex.value;
    var m := Min(i, |parts|);
    forall j | 0 <= j < m
      ensures parts[j] == final[j]
    {
      assert parts[..m][j] == final[..m][j];
    }
    if Spoken(e) {
      GrownText(parts[i], final[i]);
    }
  }

  // ---- what is timed ----

  /** How many parts an event lets the feed reach. */
  function Upto(e: Event): nat {
    if e.contentIndex.None? then 0
    else Min(if Ends(e) || Spoken(e) then e.contentIndex.value + 1 else e.contentIndex.value, |e.parts|)
  }

  /** How many parts some events let the feed reach. */
  function Reached(events: seq<Event>): nat {
    if events == [] then 0
    else
      var before, last := Reached(events[..|events| - 1]), Upto(events[|events| - 1]);
      if before < last then last else before
  }

  /** When the thinking at j began last. */
  function Began(events: seq<Event>, j: nat): Option<int> {
    if events == [] then None
    else
      var last := events[|events| - 1];
      if last.kind == ThinkingStart && last.contentIndex == Some(j) then Some(last.now)
      else Began(events[..|events| - 1], j)
  }

  /** How long the thinking at j took that ended last, if it was seen to begin. */
  function Measured(events: seq<Event>, j: nat): Option<int> {
    if events == [] then None
    else
      var before, last := events[..|events| - 1], events[|events| - 1];
      if last.kind == ThinkingEnd && last.contentIndex == Some(j) && Began(before, j).Some?
      then Some(last.now - Began(before, j).value)
      else Measured(before, j)
  }

  /** The event before `at` is the first that lets the feed reach past the part at j. */
  ghost predicate FirstReached(events: seq<Event>, j: nat, at: nat) {
    0 < at <= |events| && j < Upto(events[at - 1]) && forall k :: 0 <= k < at - 1 ==> Upto(events[k]) <= j
  }

  /** The part at j was fed at the first event that reached it, or after all of them if none did. */
  ghost predicate FedAt(events: seq<Event>, j: nat, at: nat) {
    || FirstReached(events, j, at)
    || (at == |events| && forall k :: 0 <= k < |events| ==> Upto(events[k]) <= j)
  }

  lemma {:induction false} ReachedMost(events: seq<Event>)
    ensures forall k :: 0 <= k < |events| ==> Upto(events[k]) <= Reached(events)
  {
    if events != [] {
      hide Upto;
      ReachedMost(events[..|events| - 1]);
    }
  }

  lemma FirstStays(events: seq<Event>, e: Event, j: nat, at: nat)
    requires FirstReached(events, j, at)
    ensures FirstReached(events + [e], j, at)
  {
    hide Upto;
  }

  lemma FirstNow(events: seq<Event>, e: Event, j: nat)
    requires Reached(events) <= j < Reached(events + [e])
    ensures FirstReached(events + [e], j, |events| + 1)
  {
    ReachedMost(events);
    hide Upto;
    assert (events + [e])[..|events|] == events;
  }

  // ---- the feed ----

  class RunModel {
    var model: Model
    var running: bool
    const folds: Folds

    constructor (folds: Folds)
      ensures model == EMPTY_MODEL && this.folds == folds && !running
    {
      model, running := EMPTY_MODEL, false;
      this.folds := folds;
    }

    method Add(part: Part, thinkingMs: Option<int>)
      modifies this`model
      ensures model == AddPart(old(model), part, thinkingMs, folds)
    {
      hide AddCall, Trim;
      match part.kind {
        case ThinkingPart =>
          if thinkingMs.None? {
            model := model.(pendingUnknown := true);
          } else {
            model := model.(pendingMs := model.pendingMs + thinkingMs.value);
          }
          var thought := Trim(part.thinking);
          if thought != "" {
            model := model.(pendingThinking := model.pendingThinking + [thought]);
          }
        case TextPart =>
          if Trim(part.text) != "" {
            Break();
          }
        case OtherPart =>
        case ToolCallPart =>
          if part.id == "" || part.id in model.byCall || part.id in model.standalone {
            return;
          }
          if !folds(part.name, part.args) {
            model := model.(standalone := model.standalone + {part.id});
            Break();
            return;
          }
          model := AddCall(model, part);
      }
    }

    method Break()
      modifies this`model
      ensures model == BreakRun(old(model))
    {
      model := model.(current := None, pendingMs := 0, pendingUnknown := false, pendingThinking := []);
    }

    method Fail(id: string, failed: bool)
      modifies this`model
      ensures model == SetFailed(old(model), id, failed)
    {
      model := SetFailed(model, id, failed);
    }

    method End(message: Message)
      modifies this`model
      ensures model == EndAssistant(old(model), message)
    {
      if !message.interrupted {
        return;
      }
      for i := 0 to |message.parts|
        invariant model == FailParts(old(model), message.parts[..i])
      {
        var part := message.parts[i];
        assert message.parts[..i + 1][..i] == message.parts[..i];
        if part.kind == ToolCallPart && part.id != "" {
          Fail(part.id, true);
        }
      }
      assert message.parts[..|message.parts|] == message.parts;
      Break();
    }

    method AddFinished(message: Message)
      modifies this`model
      ensures model == AddMessage(old(model), message, folds)
    {
      match message.role {
        case Assistant =>
          for i := 0 to |message.parts|
            invariant model == AddParts(old(model), message.parts[..i], folds)
          {
            assert message.parts[..i + 1][..i] == message.parts[..i];
            Add(message.parts[i], None);
          }
          assert message.parts[..|message.parts|] == message.parts;
          End(message);
        case ToolResult =>
          if message.toolCallId != "" {
            Fail(message.toolCallId, message.isError);
          }
        case Custom =>
          if message.display {
            Break();
          }
        case OtherRole => Break();
      }
    }

    /** Rebuild from a session branch. */
    method LoadBranch(entries: seq<Entry>)
      modifies this
      ensures model == Load(entries, folds) && Sound(model) && !running
    {
      model := EMPTY_MODEL;
      running := false;
      for i := 0 to |entries|
        invariant model == AddEntries(EMPTY_MODEL, entries[..i], folds) && !running
      {
        assert entries[..i + 1][..i] == entries[..i];
        match entries[i] {
          case MessageEntry(message) => AddFinished(message);
          case DrawnEntry => Break();
          case SilentEntry =>
        }
      }
      assert entries[..|entries|] == entries;
      LoadSound(entries, folds);
      Break();
    }
  }

  class LiveFeed {
    const target: RunModel
    var done: nat
    var thinkingStart: map<nat, int>
    var thinkingMs: map<nat, int>
    /** The positions fed since the message began, in order, and the time each was fed with. */
    ghost var fed: seq<nat>
    ghost var times: seq<Option<int>>
    /** How many events had been heard when each was fed. */
    ghost var at: seq<nat>
    ghost var heard: seq<Event>
    /** The model as it was when the message began. */
    ghost var base: Model

    /** What was fed is the message's first `done` parts, each once and in order, with its time. */
    ghost predicate Follows(final: seq<Part>)
      reads this, target
    {
      && done <= |final| && |fed| == |times| == |at| == done && (forall j :: 0 <= j < done ==> fed[j] == j)
      && target.model == AddTimed(base, final[..done], times, target.folds)
      && (forall j :: 0 <= j < done ==> at[j] <= |heard| && times[j] == Measured(heard[..at[j]], j))
    }

    /** The clock has what was heard. */
    ghost predicate Clocked()
      reads this
    {
      && (forall j: nat :: Began(heard, j) == if j in thinkingStart then Some(thinkingStart[j]) else None)
      && (forall j: nat :: Measured(heard, j) == if j in thinkingMs then Some(thinkingMs[j]) else None)
    }

    /** All that was fed since then was fed now. */
    ghost predicate FedNow(before: seq<nat>)
      reads this
    {
      before <= at && forall j :: |before| <= j < |at| ==> at[j] == |heard|
    }

    constructor (target: RunModel)
      ensures this.target == target && done == 0 && fed == [] && heard == [] && base == target.model
      ensures Clocked()
    {
      this.target := target;
      done, thinkingStart, thinkingMs := 0, map[], map[];
      fed, times, at, heard, base := [], [], [], [], target.model;
    }

    method Begin()
      modifies this
      ensures done == 0 && fed == [] && times == [] && at == [] && heard == [] && base == target.model && Clocked()
    {
      done := 0;
      thinkingStart := map[];
      thinkingMs := map[];
      fed, times, at, heard, base := [], [], [], [], target.model;
    }

    method Feed(parts: seq<Part>, upto: nat, ghost final: seq<Part>)
      requires Follows(final) && Clocked()
      requires Reaches(parts, upto, final)
      modifies target`model, this`done, this`fed, this`times, this`at
      ensures Follows(final) && Clocked() && old(done) <= done
      ensures done ==
        if old(done) < upto && old(done) < |parts| then (if upto < |parts| then upto else |parts|) else old(done)
      ensures FedNow(old(at))
    {
      while done < upto && done < |parts|
        invariant Follows(final) && Clocked() && old(done) <= done
        invariant done == old(done) || (done <= upto && done <= |parts|)
        invariant FedNow(old(at))
      {
        FeedOne(parts[done], final);
      }
    }

    method FeedOne(part: Part, ghost final: seq<Part>)
      requires Follows(final) && Clocked() && done < |final| && SameEffect(part, final[done])
      modifies target`model, this`done, this`fed, this`times, this`at
      ensures Follows(final) && Clocked() && done == old(done) + 1 && at == old(at) + [|heard|]
    {
      hide AddPart, SameEffect, Measured, Began;
      var ms := if done in thinkingMs then Some(thinkingMs[done]) else None;
      EffectExact(target.model, part, final[done], ms, target.folds);
      assert final[..done + 1][..done] == final[..done] && (times + [ms])[..done] == times;
      assert heard[..|heard|] == heard;
      target.Add(part, ms);
      fed, times, at := fed + [done], times + [ms], at + [|heard|];
      done := done + 1;
    }

    /** An event is heard, and the clock goes on. */
    method Hear(e: Event, ghost final: seq<Part>)
      requires Follows(final) && Clocked()
      modifies this`thinkingStart, this`thinkingMs, this`heard
      ensures Follows(final) && Clocked() && heard == old(heard) + [e]
    {
      hide AddTimed;
      if e.contentIndex.Some? {
        var i := e.contentIndex.value;
        if e.kind == ThinkingStart {
          thinkingStart := thinkingStart[i := e.now];
        }
        if e.kind == ThinkingEnd && i in thinkingStart {
          thinkingMs := thinkingMs[i := e.now - thinkingStart[i]];
        }
      }
      heard := heard + [e];
      assert heard[..|heard| - 1] == old(heard);
      HeardMore(old(heard), e);
      hide Measured, Began;
    }

    method Update(e: Event, ghost final: seq<Part>)
      requires Follows(final) && Clocked() && done == Reached(heard) && StreamOf(e, final)
      modifies target`model, this`done, this`fed, this`times, this`at, this`heard, this`thinkingStart, this`thinkingMs
      ensures Follows(final) && Clocked() && heard == old(heard) + [e] && done == Reached(heard)
      ensures old(done) <= done && FedNow(old(at))
    {
      hide Follows, Clocked, StreamOf, Upto;
      Hear(e, final);
      assert heard[..|heard| - 1] == old(heard);
      Reach(e, final);
    }

    /** Feed what an event lets the feed reach: all before its part, and that part once it ended or says something. */
    method Reach(e: Event, ghost final: seq<Part>)
      requires Follows(final) && Clocked() && StreamOf(e, final)
      modifies target`model, this`done, this`fed, this`times, this`at
      ensures Follows(final) && Clocked() && done == (if old(done) < Upto(e) then Upto(e) else old(done))
      ensures FedNow(old(at))
    {
      hide Follows, Clocked, StreamOf, Reaches, Spoken;
      if e.contentIndex.None? {
        return;
      }
      EventReaches(e, final);
      var i := e.contentIndex.value;
      Feed(e.parts, i, final);
      if Ends(e) {
        Feed(e.parts, i + 1, final);
      }
      if Spoken(e) {
        Feed(e.parts, i + 1, final);
      }
    }

    /** The message is complete: whatever has not been fed is fed now. */
    method End(message: Message) returns (ghost order: seq<nat>, ghost took: seq<Option<int>>, ghost when: seq<nat>)
      requires message.role == Assistant && Follows(message.parts) && Clocked()
      modifies this, target`model
      ensures |order| == |took| == |when| == |message.parts| && forall j :: 0 <= j < |order| ==> order[j] == j
      ensures target.model == EndAssistant(AddTimed(old(base), message.parts, took, target.folds), message)
      ensures Same(target.model, AddMessage(old(base), message, target.folds))
      ensures forall j :: 0 <= j < |took| ==>
        when[j] <= |old(heard)| && took[j] == Measured(old(heard)[..when[j]], j)
      ensures old(at) <= when && forall j :: |old(at)| <= j < |when| ==> when[j] == |old(heard)|
      ensures done == 0 && fed == [] && heard == [] && base == target.model
    {
      hide Measured, Began, AddTimed;
      ghost var final := message.parts;
      Feed(message.parts, |message.parts|, final);
      assert final[..done] == final;
      TimedSame(base, final, times, target.folds);
      EndAssistantSame(target.model, AddParts(base, final, target.folds), message);
      target.End(message);
      order, took, when := fed, times, at;
      Begin();
    }
  }

  /** What was heard earlier stays what it was. */
  lemma HeardMore(heard: seq<Event>, e: Event)
    ensures forall k :: 0 <= k <= |heard| ==> (heard + [e])[..k] == heard[..k]
  {
  }

  lemma NothingTimed(m: Model, parts: seq<Part>, folds: Folds)
    ensures AddTimed(m, parts[..0], [], folds) == m
  {
  }

  /**
    A message streamed as any sequence of events, and then ended, leaves the model as adding the finished
    message to it at once would have, but for times. `order` is the parts in the order they were fed, each
    once; each was fed at the first event that reached it, with the time measured for it by then.
   */
  method StreamMessage(target: RunModel, feed: LiveFeed, events: seq<Event>, message: Message)
    returns (ghost order: seq<nat>, ghost took: seq<Option<int>>, ghost when: seq<nat>)
    requires feed.target == target && message.role == Assistant
    requires forall k :: 0 <= k < |events| ==> StreamOf(events[k], message.parts)
    modifies feed, target`model
    ensures Same(target.model, AddMessage(old(target.model), message, target.folds))
    ensures |order| == |took| == |when| == |message.parts| && forall j :: 0 <= j < |order| ==> order[j] == j
    ensures target.model == EndAssistant(AddTimed(old(target.model), message.parts, took, target.folds), message)
    ensures forall j :: 0 <= j < |took| ==> when[j] <= |events| && took[j] == Measured(events[..when[j]], j)
    ensures forall j :: 0 <= j < |when| ==> FedAt(events, j, when[j])
  {
    hide StreamOf, Same, AddTimed, EndAssistant, AddMessage, Measured, Began, Upto, FirstReached;
    feed.Begin();
    NothingTimed(feed.base, message.parts, target.folds);
    ghost var first: seq<nat> := [];
    for k := 0 to |events|
      invariant feed.Follows(message.parts) && feed.Clocked() && feed.base == old(target.model)
      invariant feed.heard == events[..k] && feed.done == Reached(events[..k])
      invariant forall j :: 0 <= j < feed.done ==> FirstReached(events[..k], j, feed.at[j])
    {
      ghost var at, done := feed.at, feed.done;
      assert events[..k + 1] == events[..k] + [events[k]];
      feed.Update(events[k], message.parts);
      forall j | 0 <= j < feed.done
        ensures FirstReached(events[..k + 1], j, feed.at[j])
      {
        if j < done {
          assert feed.at[j] == at[j];
          FirstStays(events[..k], events[k], j, at[j]);
        } else {
          FirstNow(events[..k], events[k], j);
        }
      }
    }
    assert events[..|events|] == events;
    ReachedMost(events);
    ghost var at, done := feed.at, feed.done;
    order, took, when := feed.End(message);
    assert forall j :: 0 <= j < done ==> when[j] == at[j];
  }
}
