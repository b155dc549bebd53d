/**
  What events do to the minimap, said of what came in: which headline and focus are kept, what a notification
  leads to, what is saved, and what calls have cost.
 */
module MinimapEffects {
  import opened Prelude
  import opened Minimap
  import opened MinimapReplies
  import opened MinimapRestore
  import opened MinimapEngine
  import MinimapRuns

  // ---- what is taken over ----

  /** The summary drops and replaces entries that are there, and none in both ways. */
  predicate NamesEntries(s: Snapshot, summary: Summary) {
    && (forall i :: i in summary.dropRecent ==> i < |s.recent|)
    && (summary.replaceRecent.Some? ==>
          summary.replaceRecent.value < |s.recent| && summary.replaceRecent.value !in summary.dropRecent)
  }

  /** A summary that names entries that are there is taken over: its headline, its focus, and how far was read. */
  lemma SummaryTakenOver(s: Snapshot, batch: Batch, summary: Summary, recap: bool, norm: string -> string)
    ensures Apply(s, batch, summary, recap, norm).Some? <==> NamesEntries(s, summary)
    ensures Apply(s, batch, summary, recap, norm).Some? ==>
      var n := Apply(s, batch, summary, recap, norm).value;
      n.now == summary.now && n.focus == summary.focus && n.lastId == batch.to
  {
    assert forall i :: i in Omitting(summary) <==> i in summary.dropRecent;
    assert NamesEntries(s, summary) <==> ValidRevision(s, summary);
    hide Revision, Compacted, DuplicateOf, Merge, ValidRevision, NamesEntries;
  }

  /**
    The summary an event brings, if it may still be used: the request was not cancelled, and its result
    is a good one.
   */
  function Brings(m: Machine, event: Event): Option<Summary> {
    if event.Resolves? && m.flight.Some? && !event.result.failed && event.result.reply.Some? then
      var f := m.flight.value;
      var summary := ParseSummary(event.result.reply.value, f.fold, f.compact);
      if !f.aborted && f.epoch == m.generation && !m.disposed && summary.Some?
         && NamesEntries(m.snapshot, summary.value)
      then summary else None
    else None
  }

  /** The headline, the focus and the cursor change only when a usable summary comes in, and are then its own. */
  lemma StepTakesOver(m: Machine, event: Event, norm: string -> string)
    ensures var n, summary := Step(m, event, norm), Brings(m, event);
      if summary.Some? then
        && n.snapshot.now == summary.value.now && n.snapshot.focus == summary.value.focus
        && n.snapshot.lastId == m.flight.value.batch.to && !n.catchingUp && n.flight.None?
        && V2(n.snapshot, n.usage) in n.saves
      else n.snapshot == m.snapshot
  {
    hide Step, ParseSummary, Apply, ReadBatch;
    MinimapRuns.StepFrame(m, event, norm);
    if event.Resolves? && m.flight.Some? {
      var f := m.flight.value;
      if event.result.reply.Some? {
        var summary := ParseSummary(event.result.reply.value, f.fold, f.compact);
        if summary.Some? {
          SummaryTakenOver(m.snapshot, f.batch, summary.value, f.recap, norm);
        }
      }
      if Brings(m, event).Some? {
        AppliedIsSaved(m, event.result, norm);
      }
    }
  }

  lemma AppliedIsSaved(m: Machine, result: Completion, norm: string -> string)
    requires m.flight.Some? && !m.disposed && Outcome(m, m.flight.value, result, norm).Some?
    ensures var n := Step(m, Resolves(result), norm);
      !n.catchingUp && n.flight.None? && V2(n.snapshot, n.usage) in n.saves
  {
    hide Outcome, Accounted;
    var f := m.flight.value;
    var a := Accounted(m, f, result.usage);
    MinimapRuns.AccountedKeeps(m, f, result.usage);
    MinimapRuns.OutcomeAccounted(m, f, result, norm);
    var n := Settled(a, f, result, norm);
    assert n.saves[|n.saves| - 1] == V2(n.snapshot, n.usage);
    MinimapRuns.FinishedKeeps(n);
    hide Settled, Finished;
  }

  /** The last summary that was taken over. */
  function Latest(start: Machine, events: seq<Event>, norm: string -> string): Option<Summary> {
    if events == [] then None
    else
      var before := events[..|events| - 1];
      var summary := Brings(Run(start, before, norm), events[|events| - 1]);
      if summary.Some? then summary else Latest(start, before, norm)
  }

  /** Over every run, the headline and the focus are those of the last summary taken over, or those at the start. */
  lemma {:induction false} LatestIsShown(start: Machine, events: seq<Event>, norm: string -> string)
    ensures var s, latest := Run(start, events, norm).snapshot, Latest(start, events, norm);
      && s.now == (if latest.Some? then latest.value.now else start.snapshot.now)
      && s.focus == (if latest.Some? then latest.value.focus else start.snapshot.focus)
  {
    if events != [] {
      LatestIsShown(start, events[..|events| - 1], norm);
      StepTakesOver(Run(start, events[..|events| - 1], norm), events[|events| - 1], norm);
    }
    hide Step, Brings;
  }

  // ---- events ----

  /** The event gives the engine a reason to look for something to send. */
  predicate Notes(m: Machine, event: Event) {
    && !m.disposed
    && ((m.visible && (event.Notify? || event.SwitchModel?)) || (!m.visible && event == Show(true)))
  }

  /** The engine looks whether something is to be sent. */
  predicate Looks(m: Machine, event: Event) {
    m.visible && !m.disposed && m.flight.None? && (event.Refresh? || (event.TimerFires? && m.timer))
  }

  /** A reason is on record. */
  predicate Noted(m: Machine) {
    m.visible && !m.disposed && m.dirty
  }

  lemma ShownFlags(m: Machine, v: bool)
    ensures var n := Shown(m, v);
      && n.visible == (if m.disposed then m.visible else v) && n.disposed == m.disposed && n.luna == m.luna
      && (v && !m.visible && !m.disposed ==> n.catchingUp && n.dirty) && (v && m.dirty ==> n.dirty)
  {
    hide Aborted;
    MinimapRuns.AbortedKeeps(m.(visible := false, generation := m.generation + 1));
    MinimapRuns.ScheduledKeeps(m.(visible := true, catchingUp := true), false);
  }

  lemma SwitchedFlags(m: Machine)
    ensures var n := Switched(m);
      && n.visible == m.visible && n.disposed == m.disposed && n.luna == !m.luna
      && (m.visible && !m.disposed ==> n.dirty)
  {
    hide Aborted, Persisted;
    var a := m.(luna := !m.luna, generation := m.generation + 1);
    MinimapRuns.AbortedKeeps(a);
    MinimapRuns.PersistedKeeps(Aborted(a));
    MinimapRuns.ScheduledKeeps(Persisted(Aborted(a)), false);
  }

  lemma ScheduledFlags(m: Machine, boundary: bool)
    requires m.visible && !m.disposed
    ensures var n := Scheduled(m, boundary);
      && n.dirty && n.visible && !n.disposed && (boundary ==> n.boundary)
  {
  }

  lemma FinishedFlags(m: Machine)
    ensures var n := Finished(m);
      && n.visible == m.visible && n.disposed == m.disposed && n.luna == m.luna && n.dirty == m.dirty
  {
  }

  lemma ResolvedFlags(m: Machine, result: Completion, norm: string -> string)
    ensures var n := Resolved(m, result, norm);
      && n.visible == m.visible && n.disposed == m.disposed && n.luna == m.luna && n.dirty == m.dirty
  {
    hide Accounted, MinimapEngine.Settled, Finished;
    if m.flight.Some? {
      var f := m.flight.value;
      MinimapRuns.AccountedKeeps(m, f, result.usage);
      MinimapRuns.SettledKeeps(Accounted(m, f, result.usage), f, result, norm);
      FinishedFlags(MinimapEngine.Settled(Accounted(m, f, result.usage), f, result, norm));
    }
  }

  lemma StepNotes(m: Machine, event: Event, norm: string -> string)
    requires Notes(m, event)
    ensures Noted(Step(m, event, norm))
  {
    hide Shown, Switched, Scheduled;
    match event {
      case Show(v) => ShownFlags(m, v);
      case SwitchModel => SwitchedFlags(m);
      case Notify(boundary) => ScheduledFlags(m, boundary);
    }
  }

  lemma StepStaysNoted(m: Machine, event: Event, norm: string -> string)
    requires Noted(m) && event != Show(false) && event != Dispose && !Looks(m, event)
    ensures Noted(Step(m, event, norm))
  {
    hide Shown, Switched, Scheduled, Refreshed, Began, Resolved, Finished, Aborted, Received;
    match event {
      case Show(v) => ShownFlags(m, v);
      case SwitchModel => SwitchedFlags(m);
      case Notify(boundary) => ScheduledFlags(m, boundary);
      case TimerFires => MinimapRuns.RefreshedKeeps(m.(timer := false), false);
      case Refresh(force) => MinimapRuns.RefreshedKeeps(m, force);
      case RequestStarts => MinimapRuns.BeganKeeps(m);
      case TimeLimit => MinimapRuns.AbortedKeeps(m);
      case Resolves(result) => ResolvedFlags(m, result, norm);
      case Rejects => FinishedFlags(m);
      case Message(_) =>
    }
  }

  /** Some event after the i-th makes the engine look. */
  ghost predicate LooksAfter(start: Machine, events: seq<Event>, norm: string -> string, i: nat) {
    exists j :: i < j < |events| && Looks(Run(start, events[..j], norm), events[j])
  }

  lemma LooksEarlier(start: Machine, events: seq<Event>, norm: string -> string, i: nat)
    requires events != [] && LooksAfter(start, events[..|events| - 1], norm, i)
    ensures LooksAfter(start, events, norm, i)
  {
    hide Looks, Run;
    var before := events[..|events| - 1];
    var j :| i < j < |before| && Looks(Run(start, before[..j], norm), before[j]);
    assert before[..j] == events[..j] && before[j] == events[j];
  }

  /**
    No reason to look is lost: as long as the panel stays shown, the engine looks after it, or still means to,
    with the timer running or a request to wait for.
   */
  lemma NotedIsServed(start: Machine, events: seq<Event>, norm: string -> string, i: nat)
    requires MinimapRuns.Sound(start) && i < |events| && Notes(Run(start, events[..i], norm), events[i])
    requires forall j :: i < j < |events| ==> events[j] != Show(false) && events[j] != Dispose
    ensures var m := Run(start, events, norm);
      LooksAfter(start, events, norm, i) || (Noted(m) && (m.timer || m.flight.Some?))
  {
    MinimapRuns.RunSound(start, events, norm);
    StaysNoted(start, events, norm, i);
    hide Run, Notes, MinimapRuns.RecordSound, MinimapRuns.FlightSound, LooksAfter;
  }

  lemma {:induction false} StaysNoted(start: Machine, events: seq<Event>, norm: string -> string, i: nat)
    requires i < |events| && Notes(Run(start, events[..i], norm), events[i])
    requires forall j :: i < j < |events| ==> events[j] != Show(false) && events[j] != Dispose
    ensures LooksAfter(start, events, norm, i) || Noted(Run(start, events, norm))
  {
    hide Step, Looks, Notes, Noted, LooksAfter;
    var n := |events| - 1;
    var before := events[..n];
    if i == n {
      StepNotes(Run(start, before, norm), events[n], norm);
    } else {
      assert before[..i] == events[..i] && before[i] == events[i];
      assert forall j :: i < j < n ==> before[j] == events[j];
      StaysNoted(start, before, norm, i);
      if LooksAfter(start, before, norm, i) {
        LooksEarlier(start, events, norm, i);
      } else if Looks(Run(start, before, norm), events[n]) {
        LooksNow(start, events, norm, i);
      } else {
        StepStaysNoted(Run(start, before, norm), events[n], norm);
      }
    }
  }

  lemma LooksNow(start: Machine, events: seq<Event>, norm: string -> string, i: nat)
    requires i < |events| - 1 && Looks(Run(start, events[..|events| - 1], norm), events[|events| - 1])
    ensures LooksAfter(start, events, norm, i)
  {
    hide Looks, Run;
  }

  lemma SessionFlags(m: Machine, event: Event, norm: string -> string)
    requires event.Show? || event.SwitchModel? || event.Notify? || event.Dispose? || event.TimeLimit? || event.Message?
    ensures FlagsAs(m, event, Step(m, event, norm))
  {
    hide Shown, Switched, Scheduled, Aborted, Received, DisposedOf;
    match event {
      case Show(v) => ShownFlags(m, v);
      case SwitchModel => SwitchedFlags(m);
      case Notify(boundary) =>
        MinimapRuns.ScheduledKeeps(m, boundary);
        if m.visible && !m.disposed {
          ScheduledFlags(m, boundary);
        }
      case TimeLimit => MinimapRuns.AbortedKeeps(m);
      case Message(_) =>
      case Dispose => DisposedFlags(m);
    }
  }

  lemma RequestFlags(m: Machine, event: Event, norm: string -> string)
    requires event.TimerFires? || event.Refresh? || event.RequestStarts? || event.Resolves? || event.Rejects?
    ensures FlagsAs(m, event, Step(m, event, norm))
  {
    hide Refreshed, Began, Resolved, Finished;
    match event {
      case TimerFires => MinimapRuns.RefreshedKeeps(m.(timer := false), false);
      case Refresh(force) => MinimapRuns.RefreshedKeeps(m, force);
      case RequestStarts => MinimapRuns.BeganKeeps(m);
      case Resolves(result) => ResolvedFlags(m, result, norm);
      case Rejects => FinishedFlags(m);
    }
  }

  ghost predicate FlagsAs(m: Machine, event: Event, n: Machine) {
    && n.visible == (if event.Dispose? then false else if event.Show? && !m.disposed then event.visible
                     else m.visible)
    && n.disposed == (m.disposed || event.Dispose?)
    && n.luna == (if event.SwitchModel? then !m.luna else m.luna)
    && (event == Show(true) && !m.visible && !m.disposed ==> n.catchingUp)
    && (event == Notify(true) && m.visible && !m.disposed ==> n.boundary)
  }

  /** The panel shows what it was told last, a disposed engine shows nothing more, and each switch changes the model. */
  lemma FlagsFollow(m: Machine, event: Event, norm: string -> string)
    ensures FlagsAs(m, event, Step(m, event, norm))
  {
    hide Step, FlagsAs;
    if event.Show? || event.SwitchModel? || event.Notify? || event.Dispose? || event.TimeLimit? || event.Message? {
      SessionFlags(m, event, norm);
    } else {
      RequestFlags(m, event, norm);
    }
  }

  lemma DisposedFlags(m: Machine)
    ensures var n := DisposedOf(m); !n.visible && n.disposed && n.luna == m.luna
  {
  }

  /**
    A request ends when it resolves or is rejected, whatever comes of it, and a rejected one changes neither
    record nor usage; the first report that its call began counts it, and a later one nothing.
   */
  lemma RequestFollows(m: Machine, event: Event, norm: string -> string)
    requires m.flight.Some?
    ensures var n := Step(m, event, norm);
      && (event.Resolves? || event.Rejects? ==> n.flight.None?)
      && (event.Rejects? ==> Unchanged(m, n))
      && (event.RequestStarts? ==>
            && n.flight == Some(m.flight.value.(started := true))
            && n.usage.requests == m.usage.requests + (if m.flight.value.started then 0 else 1))
  {
    hide Resolved, Finished, Began;
    match event {
      case Resolves(result) => MinimapRuns.ResolvedKeeps(m, result, norm);
      case Rejects => MinimapRuns.FinishedKeeps(m);
      case RequestStarts => MinimapRuns.BeganKeeps(m);
      case _ =>
    }
  }

  // ---- saves ----

  /** The last save holds the record and the usage as they are. */
  predicate SavedLast(m: Machine) {
    m.saves != [] && m.saves[|m.saves| - 1] == V2(m.snapshot, m.usage)
  }

  predicate Unchanged(m: Machine, n: Machine) {
    n.snapshot == m.snapshot && n.usage == m.usage && n.saves == m.saves
  }

  /** Nothing was saved and nothing changed, or what is so now was saved. */
  predicate KeepsUp(m: Machine, n: Machine) {
    Unchanged(m, n) || SavedLast(n)
  }

  lemma AccountedKeepsUp(m: Machine, f: Flight, usage: Option<ReportedUsage>)
    requires !m.disposed
    ensures KeepsUp(m, Accounted(m, f, usage))
  {
    hide Charge;
  }

  lemma SettledKeepsUp(m: Machine, f: Flight, result: Completion, norm: string -> string)
    requires !m.disposed
    ensures KeepsUp(m, MinimapEngine.Settled(m, f, result, norm))
  {
    hide Outcome;
  }

  lemma ResolvedKeepsUp(m: Machine, result: Completion, norm: string -> string)
    requires !m.disposed && m.flight.Some?
    ensures KeepsUp(m, Resolved(m, result, norm))
  {
    hide Accounted, MinimapEngine.Settled, Finished;
    var f := m.flight.value;
    var a := Accounted(m, f, result.usage);
    MinimapRuns.AccountedKeeps(m, f, result.usage);
    AccountedKeepsUp(m, f, result.usage);
    SettledKeepsUp(a, f, result, norm);
    MinimapRuns.FinishedKeeps(MinimapEngine.Settled(a, f, result, norm));
  }

  lemma SwitchedKeepsUp(m: Machine)
    requires !m.disposed
    ensures SavedLast(Switched(m))
  {
    hide Aborted, Scheduled;
    var a := m.(luna := !m.luna, generation := m.generation + 1);
    MinimapRuns.AbortedKeeps(a);
    MinimapRuns.ScheduledKeeps(Persisted(Aborted(a)), false);
  }

  lemma BeganKeepsUp(m: Machine)
    requires !m.disposed
    ensures KeepsUp(m, Began(m))
  {
    hide Begin;
  }

  lemma StepKeepsUp(m: Machine, event: Event, norm: string -> string)
    requires !m.disposed
    ensures KeepsUp(m, Step(m, event, norm))
  {
    hide Shown, Switched, Scheduled, Refreshed, Began, Resolved, Finished, Aborted, Received, DisposedOf, SavedLast;
    match event {
      case Show(v) => MinimapRuns.ShownKeeps(m, v);
      case SwitchModel => SwitchedKeepsUp(m);
      case Notify(boundary) => MinimapRuns.ScheduledKeeps(m, boundary);
      case TimerFires => MinimapRuns.RefreshedKeeps(m.(timer := false), false);
      case Refresh(force) => MinimapRuns.RefreshedKeeps(m, force);
      case RequestStarts => BeganKeepsUp(m);
      case TimeLimit => MinimapRuns.AbortedKeeps(m);
      case Resolves(result) =>
        if m.flight.Some? {
          ResolvedKeepsUp(m, result, norm);
        } else {
          NoneResolved(m, result, norm);
        }
      case Rejects => MinimapRuns.FinishedKeeps(m);
      case Message(_) =>
      case Dispose => MinimapRuns.DisposedKeeps(m);
    }
  }

  /** Over every run that does not dispose of the engine, whatever has changed since the start has been saved. */
  lemma {:induction false} RunKeepsUp(start: Machine, events: seq<Event>, norm: string -> string)
    requires !Run(start, events, norm).disposed
    ensures KeepsUp(start, Run(start, events, norm))
  {
    if events != [] {
      var m := Run(start, events[..|events| - 1], norm);
      FlagsFollow(m, events[|events| - 1], norm);
      RunKeepsUp(start, events[..|events| - 1], norm);
      StepKeepsUp(m, events[|events| - 1], norm);
      hide Step;
    }
  }

  // ---- usage ----

  datatype Tokens = Tokens(input: nat, output: nat, cacheRead: nat, cacheWrite: nat, cost: real)

  /** What the calls reported, added up. */
  function Total(reports: seq<ReportedUsage>): Tokens {
    if reports == [] then Tokens(0, 0, 0, 0, 0.0)
    else
      var sum, r := Total(reports[..|reports| - 1]), reports[|reports| - 1];
      Tokens(sum.input + r.input, sum.output + r.output, sum.cacheRead + r.cacheRead, sum.cacheWrite + r.cacheWrite,
             sum.cost + if r.cost.Some? then r.cost.value else 0.0)
  }

  /** Usage with that much more in it. */
  predicate Grown(u: Usage, n: Usage, t: Tokens) {
    && n.input == u.input + t.input && n.output == u.output + t.output && n.cacheRead == u.cacheRead + t.cacheRead
    && n.cacheWrite == u.cacheWrite + t.cacheWrite && n.cost == u.cost + t.cost
  }

  lemma {:induction false} SpentTotals(u: Usage, begun: nat, reports: seq<ReportedUsage>)
    ensures Grown(u, MinimapRuns.Spent(u, begun, reports), Total(reports))
  {
    if reports != [] {
      SpentTotals(u, begun, reports[..|reports| - 1]);
    }
  }

  /** Over every run, tokens and costs are those at the start and those of all reports, added up. */
  lemma RunTotals(start: Machine, events: seq<Event>, norm: string -> string)
    ensures Grown(start.usage, Run(start, events, norm).usage, Total(MinimapRuns.AllReports(start, events, norm)))
  {
    MinimapRuns.RunUsage(start, events, norm);
    SpentTotals(start.usage, MinimapRuns.BegunCalls(start, events, norm), MinimapRuns.AllReports(start, events, norm));
    hide Run, MinimapRuns.Spent, MinimapRuns.AllReports, MinimapRuns.BegunCalls, Total;
  }
}
