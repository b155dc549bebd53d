/** What the minimap engine keeps over every interleaving of events, however requests end. */
module MinimapRuns {
  import opened Prelude
  import opened Minimap
  import opened MinimapInvariant
  import opened MinimapTexts
  import opened MinimapReplies
  import opened MinimapRestore
  import opened MinimapEngine

  // ---- tiling ----

  /** The batches cover the stream from `start` to `end`, one after another. */
  ghost predicate Tiled(applied: seq<Batch>, messages: seq<Message>, start: nat, end: nat) {
    if applied == [] then start == end
    else
      var last := applied[|applied| - 1];
      exists mid :: start <= mid && Covers(last, messages, mid, end) &&
        Tiled(applied[..|applied| - 1], messages, start, mid)
  }

  function Seen(applied: seq<Batch>): nat {
    if applied == [] then 0
    else Seen(applied[..|applied| - 1]) + |applied[|applied| - 1].events| + applied[|applied| - 1].omitted
  }

  /** No gap and no overlap: the events and omitted counts of tiling batches add up to the distance covered. */
  lemma {:induction false} TiledSum(applied: seq<Batch>, messages: seq<Message>, start: nat, end: nat)
    requires Tiled(applied, messages, start, end)
    ensures start <= end && Seen(applied) == end - start
  {
    if applied != [] {
      var last := applied[|applied| - 1];
      var mid :| start <= mid && Covers(last, messages, mid, end)
                 && Tiled(applied[..|applied| - 1], messages, start, mid);
      TiledSum(applied[..|applied| - 1], messages, start, mid);
    }
  }

  lemma CoversAppended(b: Batch, messages: seq<Message>, more: seq<Message>, start: nat, end: nat)
    requires Covers(b, messages, start, end)
    ensures Covers(b, messages + more, start, end)
  {
    PositionAppended(messages, more, b.from);
    PositionAppended(messages, more, b.to);
  }

  lemma {:induction false} TiledAppended(applied: seq<Batch>, messages: seq<Message>, more: seq<Message>, start: nat,
                                         end: nat)
    requires Tiled(applied, messages, start, end)
    ensures Tiled(applied, messages + more, start, end)
  {
    if applied != [] {
      var last := applied[|applied| - 1];
      var mid :| start <= mid && Covers(last, messages, mid, end)
                 && Tiled(applied[..|applied| - 1], messages, start, mid);
      CoversAppended(last, messages, more, mid, end);
      TiledAppended(applied[..|applied| - 1], messages, more, start, mid);
    }
  }

  lemma TiledNext(applied: seq<Batch>, b: Batch, messages: seq<Message>, start: nat, mid: nat, end: nat)
    requires Tiled(applied, messages, start, mid) && Covers(b, messages, mid, end)
    ensures Tiled(applied + [b], messages, start, end)
  {
    TiledSum(applied, messages, start, mid);
    var all := applied + [b];
    assert all[..|all| - 1] == applied;
    assert start <= mid && Covers(all[|all| - 1], messages, mid, end) && Tiled(all[..|all| - 1], messages, start, mid);
  }

  // ---- soundness ----

  /** A save that restoring accepts. */
  ghost predicate Accepted(save: Saved, messages: seq<Minimap.Message>) {
    save.V2? && Recorded(save.snapshot, messages) && AcceptsUsage(save.usage)
  }

  ghost predicate AllAccepted(saves: seq<Saved>, messages: seq<Minimap.Message>) {
    forall i :: 0 <= i < |saves| ==> Accepted(saves[i], messages)
  }

  /** A batch that begins right after what was read. */
  ghost predicate Continues(b: Batch, messages: seq<Minimap.Message>, at: nat) {
    Timestamp(b.at) == b.at && exists end :: Covers(b, messages, at, end)
  }

  function Read(m: Machine): nat {
    Cursor(m.messages, m.snapshot.lastId)
  }

  /**
    The record, the usage and all saves are ones that restoring accepts, in a stream of messages with
    ids of their own.
   */
  ghost predicate RecordSound(m: Machine) {
    && Stream(m.messages) && Recorded(m.snapshot, m.messages)
    && AcceptsUsage(m.usage) && AllAccepted(m.saves, m.messages)
  }

  /**
    A request in progress is about the messages right after the cursor and asks for the texts that a
    fold will need; once started it is not yet accounted.
   */
  ghost predicate FlightSound(m: Machine) {
    m.flight.Some? ==>
      var f := m.flight.value;
      && Continues(f.batch, m.messages, Read(m)) && f.epoch <= m.generation
      && (f.fold <==> |m.snapshot.recent| >= RECENT_LIMIT)
      && (f.compact <==> f.fold && CompactionFrom(m.snapshot.history, 1).Some?)
      && (f.started ==> m.usage.unknownTokens > 0 && m.usage.unknownCost > 0)
  }

  /** Hidden means no timer, and so does a request in progress; nothing disposed is visible; no notification is lost. */
  predicate TimerSound(m: Machine) {
    && (m.timer ==> m.visible && m.flight.None?) && (m.disposed ==> !m.visible)
    && (m.visible && m.dirty ==> m.timer || m.flight.Some?)
  }

  ghost predicate Sound(m: Machine) {
    RecordSound(m) && FlightSound(m) && TimerSound(m)
  }

  lemma PersistedSound(m: Machine)
    requires RecordSound(m)
    ensures RecordSound(Persisted(m))
  {
    hide Recorded, Stream, AcceptsUsage;
  }

  lemma RefreshedSound(m: Machine, force: bool)
    requires RecordSound(m) && FlightSound(m)
    ensures RecordSound(Refreshed(m, force)) && FlightSound(Refreshed(m, force))
  {
    hide Recorded, ReadBatch, CompactionFrom;
    if m.visible && !m.disposed && m.flight.None? {
      BatchContinues(m);
    }
  }

  /** What is read next is all that is unread, and nothing exactly when nothing is. */
  lemma BatchContinues(m: Machine)
    requires Stream(m.messages)
    ensures var batch := ReadBatch(m.messages, m.snapshot.lastId, m.catchingUp);
      if batch.None? then Read(m) == |m.messages|
      else Covers(batch.value, m.messages, Read(m), |m.messages|) && Continues(batch.value, m.messages, Read(m))
  {
    ReadBatchCovers(m.messages, m.snapshot.lastId, m.catchingUp);
    hide Covers;
  }

  lemma ReceivedSound(m: Machine, message: Minimap.Message)
    requires RecordSound(m) && FlightSound(m)
    ensures var n := m.(messages := Received(m.messages, message));
      RecordSound(n) && FlightSound(n) && Read(n) == Read(m)
  {
    hide Recorded, Stream, Covers, Cursor, AcceptsUsage, CompactionFrom;
    if message.id != "" && message.id !in Ids(m.messages) {
      StreamGrows(m.messages, message);
      RecordedAppended(m.snapshot, m.messages, [message]);
      forall i | 0 <= i < |m.saves|
        ensures Accepted(m.saves[i], m.messages + [message])
      {
        assert Accepted(m.saves[i], m.messages);
        RecordedAppended(m.saves[i].snapshot, m.messages, [message]);
      }
      if m.flight.Some? {
        var end :| Covers(m.flight.value.batch, m.messages, Read(m), end);
        CoversAppended(m.flight.value.batch, m.messages, [message], Read(m), end);
      }
    }
  }

  lemma StreamGrows(messages: seq<Minimap.Message>, message: Minimap.Message)
    requires Stream(messages) && message.id != "" && message.id !in Ids(messages)
    ensures Stream(messages + [message])
  {
    forall i | 0 <= i < |messages|
      ensures messages[i].id != message.id
    {
      assert Ids(messages)[i] == messages[i].id;
    }
  }

  lemma BeganSound(m: Machine)
    requires RecordSound(m) && FlightSound(m)
    ensures RecordSound(Began(m)) && FlightSound(Began(m))
  {
    if m.flight.Some? && !m.flight.value.started {
      hide Recorded, Stream, CompactionFrom;
      var n := m.(flight := Some(m.flight.value.(started := true)), usage := Begin(m.usage));
      assert RecordSound(n);
      PersistedSound(n);
    }
  }

  lemma AccountedSound(m: Machine, usage: Option<ReportedUsage>)
    requires RecordSound(m) && FlightSound(m) && m.flight.Some?
    ensures RecordSound(Accounted(m, m.flight.value, usage))
  {
    hide Recorded, Stream, CompactionFrom, Covers, Continues;
    if m.flight.value.started && usage.Some? {
      PersistedSound(m.(usage := Charge(m.usage, usage.value)));
    }
  }

  /** An applied result moves the cursor to the end of its batch. */
  lemma OutcomeSound(m: Machine, f: Flight, result: Completion, norm: string -> string) returns (end: nat)
    requires RecordSound(m) && Continues(f.batch, m.messages, Read(m)) && Outcome(m, f, result, norm).Some?
    ensures var n := m.(snapshot := Outcome(m, f, result, norm).value);
      RecordSound(n) && Covers(f.batch, m.messages, Read(m), end) && Read(n) == end
  {
    hide Recorded, Stream, Covers, AcceptsUsage, Apply, ParseSummary;
    end :| Covers(f.batch, m.messages, Read(m), end);
    var summary := Usable(m, f, result).value;
    ParsedIsClean(result.reply.value, f.fold, f.compact);
    ApplyAdvances(m.snapshot, f.batch, summary, f.recap, norm, m.messages, end);
  }

  lemma SettledSound(m: Machine, f: Flight, result: Completion, norm: string -> string)
    requires RecordSound(m) && Continues(f.batch, m.messages, Read(m))
    ensures RecordSound(Settled(m, f, result, norm))
  {
    hide RecordSound, Outcome, Continues;
    if Outcome(m, f, result, norm).Some? {
      var end := OutcomeSound(m, f, result, norm);
      var n := m.(snapshot := Outcome(m, f, result, norm).value);
      SameRecord(n, n.(catchingUp := false));
      PersistedSound(n.(catchingUp := false));
    }
  }

  lemma SameRecord(m: Machine, n: Machine)
    requires RecordSound(m) && n.snapshot == m.snapshot && n.messages == m.messages
    requires n.usage == m.usage && n.saves == m.saves
    ensures RecordSound(n)
  {
    hide Recorded, Stream, AcceptsUsage, AllAccepted;
  }

  // ---- what each step leaves alone ----

  /** Whether an event begins a call, and what a call reports at it. */
  predicate Begins(m: Machine, event: Event) {
    event.RequestStarts? && m.flight.Some? && !m.flight.value.started
  }

  function Reports(m: Machine, event: Event): Option<ReportedUsage> {
    if event.Resolves? && m.flight.Some? && m.flight.value.started then event.result.usage else None
  }

  lemma ScheduledKeeps(m: Machine, boundary: bool)
    ensures var n := Scheduled(m, boundary);
      n == m.(boundary := n.boundary, dirty := n.dirty, timer := n.timer)
  {
  }

  lemma AbortedKeeps(m: Machine)
    ensures var n := Aborted(m);
      && n == m.(flight := n.flight)
      && n.flight == if m.flight.Some? then Some(m.flight.value.(aborted := true)) else None
  {
  }

  lemma PersistedKeeps(m: Machine)
    ensures var n := Persisted(m);
      n == m.(saves := n.saves) && (m.disposed ==> n.saves == m.saves)
  {
  }

  lemma ShownKeeps(m: Machine, v: bool)
    ensures var n := Shown(m, v);
      && n.snapshot == m.snapshot && n.messages == m.messages
      && n.usage == m.usage && n.saves == m.saves && n.disposed == m.disposed
      && (n.flight == m.flight || n.flight == Aborted(m).flight) && m.generation <= n.generation
      && n.visible == if m.disposed then m.visible else v
  {
    AbortedKeeps(m);
  }

  lemma SwitchedKeeps(m: Machine)
    ensures var n := Switched(m);
      && n.snapshot == m.snapshot && n.messages == m.messages && n.usage == m.usage
      && n.disposed == m.disposed && n.visible == m.visible
      && n.flight == Aborted(m).flight && n.generation == m.generation + 1 && (m.disposed ==> n.saves == m.saves)
  {
    var a := m.(luna := !m.luna, generation := m.generation + 1);
    AbortedKeeps(m);
    AbortedKeeps(a);
    PersistedKeeps(Aborted(a));
    ScheduledKeeps(Persisted(Aborted(a)), false);
    hide Aborted, Persisted, Scheduled;
  }

  lemma RefreshedKeeps(m: Machine, force: bool)
    ensures var n := Refreshed(m, force);
      && n == m.(timer := n.timer, dirty := n.dirty, boundary := n.boundary,
                 catchingUp := n.catchingUp, flight := n.flight)
      && (!m.visible || m.disposed || m.flight.Some? ==> n == m)
  {
    hide ReadBatch, FlightFor;
  }

  lemma BeganKeeps(m: Machine)
    ensures var n := Began(m);
      && n == m.(flight := n.flight, usage := n.usage, saves := n.saves) && (m.disposed ==> n.saves == m.saves)
      && n.flight == (if m.flight.Some? then Some(m.flight.value.(started := true)) else None)
      && n.usage == if Begins(m, RequestStarts) then Begin(m.usage) else m.usage
  {
    hide Begin;
    if m.flight.Some? && !m.flight.value.started {
      PersistedKeeps(m.(flight := Some(m.flight.value.(started := true)), usage := Begin(m.usage)));
      hide Persisted;
    }
  }

  lemma AccountedKeeps(m: Machine, f: Flight, usage: Option<ReportedUsage>)
    ensures var a := Accounted(m, f, usage);
      && a == m.(usage := a.usage, saves := a.saves) && (m.disposed ==> a.saves == m.saves)
      && a.usage == if f.started && usage.Some? then Charge(m.usage, usage.value) else m.usage
  {
    hide Charge, Persisted;
    if usage.Some? {
      PersistedKeeps(m.(usage := Charge(m.usage, usage.value)));
    }
  }

  lemma SettledKeeps(m: Machine, f: Flight, result: Completion, norm: string -> string)
    ensures var n := Settled(m, f, result, norm);
      && n == m.(snapshot := n.snapshot, saves := n.saves, catchingUp := n.catchingUp)
      && n.snapshot == (if Outcome(m, f, result, norm).Some? then Outcome(m, f, result, norm).value else m.snapshot)
      && (Superseded(m, f) ==> n == m)
  {
    hide Apply, ParseSummary;
  }

  lemma FinishedKeeps(m: Machine)
    ensures var n := Finished(m);
      n == m.(flight := None, boundary := n.boundary, dirty := n.dirty, timer := n.timer)
  {
  }

  lemma OutcomeAccounted(m: Machine, f: Flight, result: Completion, norm: string -> string)
    ensures Outcome(Accounted(m, f, result.usage), f, result, norm) == Outcome(m, f, result, norm)
  {
    AccountedKeeps(m, f, result.usage);
    hide Accounted, Apply, ParseSummary;
  }

  /**
    A request that resolves: reports are counted whatever becomes of the result, and a superseded
    result changes nothing.
   */
  lemma ResolvedKeeps(m: Machine, result: Completion, norm: string -> string)
    requires m.flight.Some?
    ensures var n := Resolved(m, result, norm);
      && n.messages == m.messages && n.disposed == m.disposed && n.visible == m.visible && n.generation == m.generation
      && n.flight.None?
      && n.usage == (if Reports(m, Resolves(result)).Some? then Charge(m.usage, Reports(m, Resolves(result)).value)
        else m.usage)
      && n.snapshot == (var next := Outcome(m, m.flight.value, result, norm); if next.Some? then next.value
        else m.snapshot)
      && (Superseded(m, m.flight.value) ==> n.snapshot == m.snapshot && n.catchingUp == m.catchingUp)
      && (m.disposed ==> n.saves == m.saves)
  {
    var f := m.flight.value;
    var a := Accounted(m, f, result.usage);
    AccountedKeeps(m, f, result.usage);
    OutcomeAccounted(m, f, result, norm);
    SettledKeeps(a, f, result, norm);
    FinishedKeeps(Settled(a, f, result, norm));
    hide Accounted, Settled, Finished, Outcome, Charge;
  }

  lemma DisposedKeeps(m: Machine)
    ensures var n := DisposedOf(m);
      && n.snapshot == m.snapshot && n.messages == m.messages && n.usage == m.usage && n.saves == m.saves
      && n.flight == Aborted(m).flight && n.generation == m.generation + 1 && n.disposed && !n.visible
  {
  }

  /** The record an event leads to, if it applies a result. */
  function NextRecord(m: Machine, event: Event, norm: string -> string): (s: Option<Snapshot>)
    ensures s.Some? ==> event.Resolves? && m.flight.Some?
  {
    if event.Resolves? && m.flight.Some? then Outcome(m, m.flight.value, event.result, norm) else None
  }

  /** Events that neither begin nor end a request's account leave usage and record alone. */
  ghost predicate Calm(m: Machine, n: Machine) {
    && n.snapshot == m.snapshot && n.usage == m.usage && m.generation <= n.generation
    && (m.disposed ==> n.disposed && n.saves == m.saves)
  }

  /** A request in progress stays, unless it ends. */
  ghost predicate Stays(m: Machine, n: Machine) {
    m.flight.Some? ==>
      && n.flight.Some? && n.flight.value.epoch == m.flight.value.epoch
      && (m.flight.value.aborted ==> n.flight.value.aborted)
  }

  /** Events that begin nothing. */
  ghost predicate Quiet(m: Machine, n: Machine) {
    Calm(m, n) && Stays(m, n) && (m.flight.None? ==> n.flight.None?)
  }

  lemma QuietWhen(m: Machine, n: Machine)
    requires n.snapshot == m.snapshot && n.usage == m.usage && m.generation <= n.generation
    requires m.disposed ==> n.disposed && n.saves == m.saves
    requires n.flight == m.flight || n.flight == Aborted(m).flight
    ensures Quiet(m, n)
  {
    AbortedKeeps(m);
    hide Aborted;
  }

  lemma SessionStep(m: Machine, event: Event, norm: string -> string)
    requires event.Show? || event.SwitchModel? || event.Notify? || event.Dispose? || event.TimeLimit? || event.Message?
    ensures var n := Step(m, event, norm);
      && Quiet(m, n) && (!m.visible && event != Show(true) ==> !n.visible)
      && n.messages == (if event.Message? then Received(m.messages, event.message) else m.messages)
  {
    hide Received, Shown, Switched, Scheduled, Aborted, DisposedOf, Quiet;
    match event {
      case Show(v) =>
        ShownKeeps(m, v);
        QuietWhen(m, Shown(m, v));
      case SwitchModel =>
        SwitchedKeeps(m);
        QuietWhen(m, Switched(m));
      case Notify(boundary) =>
        ScheduledKeeps(m, boundary);
        QuietWhen(m, Scheduled(m, boundary));
      case Dispose =>
        DisposedKeeps(m);
        QuietWhen(m, DisposedOf(m));
      case TimeLimit =>
        AbortedKeeps(m);
        QuietWhen(m, Aborted(m));
      case Message(message) => QuietWhen(m, m.(messages := Received(m.messages, message)));
    }
  }

  lemma RefreshStep(m: Machine, event: Event, norm: string -> string)
    requires event.TimerFires? || event.Refresh? || event.Rejects?
    ensures var n := Step(m, event, norm);
      && Calm(m, n) && (!event.Rejects? ==> Stays(m, n)) && (!m.visible ==> !n.visible) && n.messages == m.messages
      && (m.flight.None? && (event.Rejects? || !m.visible) ==> n.flight.None?)
  {
    hide Refreshed, Finished;
    match event {
      case TimerFires => RefreshedKeeps(m.(timer := false), false);
      case Refresh(force) => RefreshedKeeps(m, force);
      case _ => FinishedKeeps(m);
    }
  }

  lemma RequestStep(m: Machine, event: Event, norm: string -> string)
    requires event.RequestStarts? || event.Resolves?
    ensures var n := Step(m, event, norm);
      && n.messages == m.messages && n.generation == m.generation && n.visible == m.visible && n.disposed == m.disposed
      && (m.disposed ==> n.saves == m.saves && n.snapshot == m.snapshot)
      && (m.flight.None? ==> n.flight.None?) && (event.RequestStarts? ==> Stays(m, n))
      && n.usage == (if Begins(m, event) then Begin(m.usage)
                     else if Reports(m, event).Some? then Charge(m.usage, Reports(m, event).value)
                     else m.usage)
      && n.snapshot == (if NextRecord(m, event, norm).Some? then NextRecord(m, event, norm).value else m.snapshot)
  {
    hide Began, Resolved, Begin, Charge, Outcome;
    if event.RequestStarts? {
      BeganKeeps(m);
    } else if m.flight.Some? {
      ResolvedKeeps(m, event.result, norm);
    } else {
      NoneResolved(m, event.result, norm);
    }
  }

  /** What any event does to the stream, the usage and the record. */
  lemma StepFrame(m: Machine, event: Event, norm: string -> string)
    ensures var n := Step(m, event, norm);
      && n.messages == (if event.Message? then Received(m.messages, event.message) else m.messages)
      && n.usage == (if Begins(m, event) then Begin(m.usage)
                     else if Reports(m, event).Some? then Charge(m.usage, Reports(m, event).value)
                     else m.usage)
      && n.snapshot == (if NextRecord(m, event, norm).Some? then NextRecord(m, event, norm).value else m.snapshot)
      && (m.disposed ==> n.disposed && n.saves == m.saves && n.snapshot == m.snapshot)
  {
    hide Step, Received, Begin, Charge, Outcome, Stays;
    if event.RequestStarts? || event.Resolves? {
      RequestStep(m, event, norm);
    } else if event.TimerFires? || event.Refresh? || event.Rejects? {
      RefreshStep(m, event, norm);
    } else {
      SessionStep(m, event, norm);
    }
  }

  /** What any event does to the request in progress. */
  lemma StepFlight(m: Machine, event: Event, norm: string -> string)
    ensures var n := Step(m, event, norm);
      && (!m.visible && event != Show(true) ==> !n.visible)
      && (m.flight.None? && n.flight.Some? ==> m.visible && (event.Refresh? || event.TimerFires?))
      && m.generation <= n.generation && (m.disposed ==> n.disposed)
      && (!event.Resolves? && !event.Rejects? ==> Stays(m, n))
  {
    hide Step, Received, Begin, Charge, Outcome, Stays;
    if event.RequestStarts? || event.Resolves? {
      RequestStep(m, event, norm);
    } else if event.TimerFires? || event.Refresh? || event.Rejects? {
      RefreshStep(m, event, norm);
    } else {
      SessionStep(m, event, norm);
    }
  }

  // ---- one event ----

  lemma ResolvedSound(m: Machine, result: Completion, norm: string -> string)
    requires RecordSound(m) && FlightSound(m) && TimerSound(m)
    ensures RecordSound(Resolved(m, result, norm)) && Resolved(m, result, norm).flight.None?
  {
    hide RecordSound, Accounted, Settled, Continues, Finished;
    if m.flight.Some? {
      var f := m.flight.value;
      var a := Accounted(m, f, result.usage);
      AccountedSound(m, result.usage);
      AccountedKeeps(m, f, result.usage);
      SettledSound(a, f, result, norm);
      FinishedRecord(Settled(a, f, result, norm));
      ResolvedKeeps(m, result, norm);
    }
  }

  lemma FinishedRecord(m: Machine)
    requires RecordSound(m)
    ensures RecordSound(Finished(m))
  {
    FinishedKeeps(m);
    SameRecord(m, Finished(m));
    hide RecordSound;
  }

  /** Steps that only set flags, or cancel the request in progress. */
  ghost predicate OnlyFlags(m: Machine, n: Machine) {
    && n.snapshot == m.snapshot && n.messages == m.messages && n.usage == m.usage && n.saves == m.saves
    && m.generation <= n.generation
    && (n.flight == m.flight || (m.flight.Some? && n.flight == Some(m.flight.value.(aborted := true))))
  }

  lemma FlagsSound(m: Machine, n: Machine)
    requires RecordSound(m) && FlightSound(m) && OnlyFlags(m, n)
    ensures RecordSound(n) && FlightSound(n)
  {
    SameRecord(m, n);
    hide RecordSound, Continues, CompactionFrom;
  }

  lemma SwitchedSound(m: Machine)
    requires RecordSound(m) && FlightSound(m)
    ensures RecordSound(Switched(m)) && FlightSound(Switched(m))
  {
    hide RecordSound, FlightSound, Scheduled, Persisted, Aborted;
    var a := m.(luna := !m.luna, generation := m.generation + 1);
    AbortedKeeps(a);
    FlagsSound(m, Aborted(a));
    PersistedSound(Aborted(a));
    PersistedKeeps(Aborted(a));
    SavedFlight(Aborted(a), Persisted(Aborted(a)));
    ScheduledKeeps(Persisted(Aborted(a)), false);
    FlagsSound(Persisted(Aborted(a)), Switched(m));
  }

  lemma SavedFlight(m: Machine, n: Machine)
    requires FlightSound(m) && n == m.(saves := n.saves)
    ensures FlightSound(n)
  {
    hide Continues, CompactionFrom;
  }

  lemma StepRecord(m: Machine, event: Event, norm: string -> string)
    requires Sound(m)
    ensures RecordSound(Step(m, event, norm)) && FlightSound(Step(m, event, norm))
  {
    hide RecordSound, FlightSound, Received, Shown, Switched, Scheduled, Refreshed, Began, Aborted, Resolved,
      Finished, DisposedOf;
    AbortedKeeps(m);
    match event {
      case Message(message) => ReceivedSound(m, message);
      case Show(v) =>
        ShownKeeps(m, v);
        FlagsSound(m, Shown(m, v));
      case SwitchModel => SwitchedSound(m);
      case Notify(boundary) =>
        ScheduledKeeps(m, boundary);
        FlagsSound(m, Scheduled(m, boundary));
      case TimerFires =>
        FlagsSound(m, m.(timer := false));
        RefreshedSound(m.(timer := false), false);
      case Refresh(force) => RefreshedSound(m, force);
      case RequestStarts => BeganSound(m);
      case TimeLimit => FlagsSound(m, Aborted(m));
      case Resolves(result) =>
        ResolvedSound(m, result, norm);
        FreeFlight(Resolved(m, result, norm));
      case Rejects =>
        FinishedRecord(m);
        FinishedKeeps(m);
        FreeFlight(Finished(m));
      case Dispose =>
        DisposedKeeps(m);
        FlagsSound(m, DisposedOf(m));
    }
  }

  lemma FreeFlight(m: Machine)
    requires m.flight.None?
    ensures FlightSound(m)
  {
  }

  lemma FinishedTimer(m: Machine)
    requires m.disposed ==> !m.visible
    requires !m.timer
    ensures TimerSound(Finished(m))
  {
  }

  lemma StepTimer(m: Machine, event: Event, norm: string -> string)
    requires TimerSound(m)
    ensures TimerSound(Step(m, event, norm))
  {
    hide ReadBatch, CompactionFrom, Charge, Apply, Usable;
    if event.Resolves? && m.flight.Some? {
      var f := m.flight.value;
      var a := Accounted(m, f, event.result.usage);
      AccountedKeeps(m, f, event.result.usage);
      SettledKeeps(a, f, event.result, norm);
      FinishedTimer(Settled(a, f, event.result, norm));
      hide Accounted, Settled, Finished, TimerSound;
    }
  }

  /**
    Every interleaving of events keeps the engine sound: what it saves restoring accepts, a request is
    about the messages right after the cursor, and no notification is lost while it shows.
   */
  lemma {:induction false} RunSound(start: Machine, events: seq<Event>, norm: string -> string)
    requires Sound(start)
    ensures Sound(Run(start, events, norm))
  {
    if events != [] {
      var m := Run(start, events[..|events| - 1], norm);
      RunSound(start, events[..|events| - 1], norm);
      StepRecord(m, events[|events| - 1], norm);
      StepTimer(m, events[|events| - 1], norm);
      hide RecordSound, FlightSound, TimerSound, Step;
    }
  }

  /** Every save of a run is one that restoring gives back with its texts cleaned again. */
  lemma SavesAreRestored(start: Machine, events: seq<Event>, norm: string -> string, ids: set<string>, i: nat)
    requires Sound(start)
    requires var m := Run(start, events, norm);
      i < |m.saves| && forall id :: id in Ids(m.messages) ==> id in ids
    ensures var save := Run(start, events, norm).saves[i];
      && save.V2? && RestoreOne(save, ids) == Some(Reread(save.snapshot))
      && (Reread(save.snapshot) == save.snapshot <==> ReadsAlike(save.snapshot))
  {
    RunSound(start, events, norm);
    var m := Run(start, events, norm);
    assert Accepted(m.saves[i], m.messages);
    hide Run, Recorded, RestoreOne, AcceptsUsage;
    SaveAccepted(m.saves[i].snapshot, m.saves[i].usage, m.messages, ids, []);
  }

  /** Saves added by a step are of the record before it or after it. */
  ghost predicate SavesOf(m: Machine, n: Machine) {
    forall save :: save in n.saves ==>
      save in m.saves || (save.V2? && (save.snapshot == m.snapshot || save.snapshot == n.snapshot))
  }

  lemma AccountedSaves(m: Machine, f: Flight, usage: Option<ReportedUsage>)
    ensures SavesOf(m, Accounted(m, f, usage))
  {
    hide Charge;
  }

  lemma SettledSaves(m: Machine, f: Flight, result: Completion, norm: string -> string)
    ensures SavesOf(m, Settled(m, f, result, norm))
  {
    hide Outcome;
  }

  lemma ResolvedSaves(m: Machine, result: Completion, norm: string -> string)
    requires m.flight.Some?
    ensures SavesOf(m, Resolved(m, result, norm))
  {
    hide Accounted, Settled, Finished;
    var f := m.flight.value;
    var a := Accounted(m, f, result.usage);
    AccountedSaves(m, f, result.usage);
    AccountedKeeps(m, f, result.usage);
    SettledSaves(a, f, result, norm);
    FinishedKeeps(Settled(a, f, result, norm));
  }

  lemma SwitchedSaves(m: Machine)
    ensures SavesOf(m, Switched(m))
  {
    var a := m.(luna := !m.luna, generation := m.generation + 1);
    AbortedKeeps(a);
    ScheduledKeeps(Persisted(Aborted(a)), false);
    hide Aborted, Scheduled;
  }

  lemma BeganSaves(m: Machine)
    ensures SavesOf(m, Began(m))
  {
    hide Begin;
  }

  lemma StepSaves(m: Machine, event: Event, norm: string -> string)
    ensures SavesOf(m, Step(m, event, norm))
  {
    hide Received, Shown, Switched, Scheduled, Refreshed, Began, Aborted, Resolved, Finished, DisposedOf;
    match event {
      case Message(message) =>
      case Show(v) => ShownKeeps(m, v);
      case SwitchModel => SwitchedSaves(m);
      case Notify(boundary) => ScheduledKeeps(m, boundary);
      case TimerFires => RefreshedKeeps(m.(timer := false), false);
      case Refresh(force) => RefreshedKeeps(m, force);
      case RequestStarts => BeganSaves(m);
      case TimeLimit => AbortedKeeps(m);
      case Resolves(result) =>
        if m.flight.Some? {
          ResolvedSaves(m, result, norm);
        } else {
          NoneResolved(m, result, norm);
        }
      case Rejects => FinishedKeeps(m);
      case Dispose => DisposedKeeps(m);
    }
  }

  /** The record and all saves are tidy. */
  ghost predicate AllTidy(m: Machine) {
    FitRecord(m.snapshot, true) && forall save :: save in m.saves ==> save.V2? && FitRecord(save.snapshot, true)
  }

  lemma StepTidy(m: Machine, event: Event, norm: string -> string)
    requires Sound(m) && AllTidy(m)
    ensures AllTidy(Step(m, event, norm))
  {
    hide Step, Recorded, Stream, FitRecord, Apply, ParseSummary, TimerSound, CompactionFrom;
    StepSaves(m, event, norm);
    StepFrame(m, event, norm);
    if NextRecord(m, event, norm).Some? {
      var f, result := m.flight.value, event.result;
      var summary := Usable(m, f, result).value;
      ParsedIsClean(result.reply.value, f.fold, f.compact);
      ApplyFits(m.snapshot, f.batch, summary, f.recap, norm, true);
    }
  }

  /**
    From a tidy record, as from the empty one and all but some version 1 records, every save of a run is
    tidy: of its entries, reading it back takes away spaces that texts were cut behind, and nothing else.
   */
  lemma {:induction false} RunTidy(start: Machine, events: seq<Event>, norm: string -> string)
    requires Sound(start) && AllTidy(start)
    ensures AllTidy(Run(start, events, norm))
  {
    if events != [] {
      var before := events[..|events| - 1];
      RunTidy(start, before, norm);
      RunSound(start, before, norm);
      StepTidy(Run(start, before, norm), events[|events| - 1], norm);
      hide Sound, AllTidy, Step;
    }
  }

  /** An engine over a record that was restored into its stream starts sound. */
  lemma LoadedSound(s: Snapshot, usage: Usage, messages: seq<Minimap.Message>)
    requires Stream(messages) && Recorded(s, messages) && AcceptsUsage(usage)
    ensures Sound(Loaded(s, usage, messages))
  {
  }

  // ---- what was applied ----

  /** The batch an event applies, if it applies one. */
  function AppliedBy(m: Machine, event: Event, norm: string -> string): Option<Batch> {
    if NextRecord(m, event, norm).Some? then Some(m.flight.value.batch) else None
  }

  function Applied(start: Machine, events: seq<Event>, norm: string -> string): seq<Batch> {
    if events == [] then []
    else
      var before := events[..|events| - 1];
      var b := AppliedBy(Run(start, before, norm), events[|events| - 1], norm);
      Applied(start, before, norm) + if b.Some? then [b.value] else []
  }

  /** The record changes only when a batch is applied, and then the cursor moves over exactly that batch. */
  lemma StepApplies(m: Machine, event: Event, norm: string -> string)
    requires Sound(m)
    ensures var n := Step(m, event, norm);
      var b := AppliedBy(m, event, norm);
      && m.messages <= n.messages
      && if b.Some? then Covers(b.value, n.messages, Read(m), Read(n))
        else n.snapshot == m.snapshot && Read(n) == Read(m)
  {
    hide RecordSound, Covers, Continues, Outcome, Step;
    StepFrame(m, event, norm);
    if event.Message? {
      ReceivedSound(m, event.message);
    }
    if AppliedBy(m, event, norm).Some? {
      var end := OutcomeSound(m, m.flight.value, event.result, norm);
    }
  }

  lemma TiledStep(applied: seq<Batch>, b: Option<Batch>, messages: seq<Minimap.Message>, more: seq<Minimap.Message>,
                  start: nat, mid: nat, end: nat)
    requires messages <= more && Tiled(applied, messages, start, mid)
    requires if b.Some? then Covers(b.value, more, mid, end) else end == mid
    ensures Tiled(applied + (if b.Some? then [b.value] else []), more, start, end)
  {
    assert more == messages + more[|messages|..];
    TiledAppended(applied, messages, more[|messages|..], start, mid);
    if b.Some? {
      TiledNext(applied, b.value, more, start, mid, end);
    } else {
      assert applied + [] == applied;
    }
  }

  /**
    Over every interleaving, the batches applied cover the stream from where the record stood to where
    it stands, one after the other, without gap or overlap.
   */
  lemma {:induction false} RunTiles(start: Machine, events: seq<Event>, norm: string -> string)
    requires Sound(start)
    ensures var m := Run(start, events, norm);
      && start.messages <= m.messages && Read(start) <= Read(m)
      && Tiled(Applied(start, events, norm), m.messages, Read(start), Read(m))
      && Seen(Applied(start, events, norm)) == Read(m) - Read(start)
  {
    hide Sound, Step, Read, Covers, AppliedBy, Seen, Tiled;
    if events != [] {
      var before := events[..|events| - 1];
      var m := Run(start, before, norm);
      RunSound(start, before, norm);
      RunTiles(start, before, norm);
      StepApplies(m, events[|events| - 1], norm);
      var n := Run(start, events, norm);
      TiledStep(Applied(start, before, norm), AppliedBy(m, events[|events| - 1], norm), m.messages, n.messages,
                Read(start), Read(m), Read(n));
    } else {
      NothingTiled(start.messages, Read(start));
    }
    var end := Run(start, events, norm);
    TiledSum(Applied(start, events, norm), end.messages, Read(start), Read(end));
  }

  lemma NothingTiled(messages: seq<Minimap.Message>, at: nat)
    ensures Tiled([], messages, at, at)
  {
  }

  /** The stream holds what it held and the messages that came, those without an id of their own left out. */
  function StreamAfter(messages: seq<Minimap.Message>, events: seq<Event>): seq<Minimap.Message> {
    if events == [] then messages
    else
      var before, last := StreamAfter(messages, events[..|events| - 1]), events[|events| - 1];
      if last.Message? then Received(before, last.message) else before
  }

  lemma {:induction false} RunStream(start: Machine, events: seq<Event>, norm: string -> string)
    ensures Run(start, events, norm).messages == StreamAfter(start.messages, events)
  {
    if events != [] {
      RunStream(start, events[..|events| - 1], norm);
      StepFrame(Run(start, events[..|events| - 1], norm), events[|events| - 1], norm);
      hide Step, Received;
    }
  }

  // ---- what was spent ----

  function BegunCalls(start: Machine, events: seq<Event>, norm: string -> string): nat {
    if events == [] then 0
    else
      var before := events[..|events| - 1];
      BegunCalls(start, before, norm) + if Begins(Run(start, before, norm), events[|events| - 1]) then 1 else 0
  }

  function AllReports(start: Machine, events: seq<Event>, norm: string -> string): seq<ReportedUsage> {
    if events == [] then []
    else
      var before := events[..|events| - 1];
      var r := Reports(Run(start, before, norm), events[|events| - 1]);
      AllReports(start, before, norm) + if r.Some? then [r.value] else []
  }

  /** Usage with some more calls begun and some of them reported. */
  function Spent(u: Usage, begun: nat, reports: seq<ReportedUsage>): Usage {
    if reports != [] then Charge(Spent(u, begun, reports[..|reports| - 1]), reports[|reports| - 1])
    else
      u.(requests := u.requests + begun,
         unknownTokens := u.unknownTokens + begun, unknownCost := u.unknownCost + begun)
  }

  function Priced(reports: seq<ReportedUsage>): nat {
    if reports == [] then 0 else Priced(reports[..|reports| - 1]) + if reports[|reports| - 1].cost.Some? then 1 else 0
  }

  lemma {:induction false} SpentBegun(u: Usage, begun: nat, reports: seq<ReportedUsage>)
    ensures Spent(u, begun + 1, reports) == Begin(Spent(u, begun, reports))
  {
    if reports != [] {
      SpentBegun(u, begun, reports[..|reports| - 1]);
    }
  }

  lemma {:induction false} SpentBalance(u: Usage, begun: nat, reports: seq<ReportedUsage>)
    ensures var n := Spent(u, begun, reports);
      && n.requests == u.requests + begun
      && n.unknownTokens == u.unknownTokens + begun - |reports|
      && n.unknownCost == u.unknownCost + begun - Priced(reports)
  {
    if reports != [] {
      SpentBalance(u, begun, reports[..|reports| - 1]);
    }
  }

  /**
    Over every interleaving, usage is what the calls that began and those of them that reported come
    to, whatever became of their results: so requests less the unknown grow by exactly the reports.
   */
  lemma {:induction false} RunUsage(start: Machine, events: seq<Event>, norm: string -> string)
    ensures Run(start, events, norm).usage ==
      Spent(start.usage, BegunCalls(start, events, norm), AllReports(start, events, norm))
  {
    if events != [] {
      var before, last := events[..|events| - 1], events[|events| - 1];
      var m := Run(start, before, norm);
      var begun, reports := BegunCalls(start, before, norm), AllReports(start, before, norm);
      RunUsage(start, before, norm);
      StepFrame(m, last, norm);
      SpentBegun(start.usage, begun, reports);
      assert reports + [] == reports;
      if Reports(m, last).Some? {
        assert (reports + [Reports(m, last).value])[..|reports|] == reports;
      }
      hide Step, Charge, Begin;
    }
  }

  /** From empty usage, what is unknown is what was requested and never reported, and never more than was requested. */
  lemma RunBalances(start: Machine, events: seq<Event>, norm: string -> string)
    requires Sound(start) && start.usage == EMPTY_USAGE
    ensures var u := Run(start, events, norm).usage;
      var reports := AllReports(start, events, norm);
      && u.requests == BegunCalls(start, events, norm)
      && u.requests - u.unknownTokens == |reports| && u.requests - u.unknownCost == Priced(reports)
      && 0 <= u.unknownTokens <= u.requests && 0 <= u.unknownCost <= u.requests
  {
    RunUsage(start, events, norm);
    SpentBalance(start.usage, BegunCalls(start, events, norm), AllReports(start, events, norm));
    RunSound(start, events, norm);
    hide Run, Recorded, FlightSound, TimerSound, Spent;
  }

  // ---- cancelling ----

  /** A request that is superseded stays so until it ends, whatever happens meanwhile. */
  lemma {:induction false} CancelledForGood(start: Machine, events: seq<Event>, norm: string -> string)
    requires start.flight.Some? && start.flight.value.epoch <= start.generation && Superseded(start, start.flight.value)
    requires forall i :: 0 <= i < |events| ==> !events[i].Resolves? && !events[i].Rejects?
    ensures var m := Run(start, events, norm);
      m.flight.Some? && m.flight.value.epoch <= m.generation && Superseded(m, m.flight.value)
  {
    if events != [] {
      CancelledForGood(start, events[..|events| - 1], norm);
      StaysCancelled(Run(start, events[..|events| - 1], norm), events[|events| - 1], norm);
      hide Step;
    }
  }

  lemma StaysCancelled(m: Machine, event: Event, norm: string -> string)
    requires m.flight.Some? && m.flight.value.epoch <= m.generation && Superseded(m, m.flight.value)
    requires !event.Resolves? && !event.Rejects?
    ensures var n := Step(m, event, norm);
      n.flight.Some? && n.flight.value.epoch <= n.generation && Superseded(n, n.flight.value)
  {
    StepFlight(m, event, norm);
    hide Step;
  }

  /**
    Hiding a panel that shows, switching models, disposing and running out of time supersede the
    request in progress.
   */
  lemma Cancels(m: Machine, event: Event, norm: string -> string)
    requires m.flight.Some? && m.flight.value.epoch <= m.generation
    requires event.SwitchModel? || event.Dispose? || event.TimeLimit? ||
             (event == Show(false) && m.visible && !m.disposed)
    ensures var n := Step(m, event, norm);
      n.flight.Some? && n.flight.value.epoch <= n.generation && Superseded(n, n.flight.value)
  {
  }

  /** A superseded result changes neither the record nor the cursor, but its tokens are counted. */
  lemma SupersededChangesNothing(m: Machine, result: Completion, norm: string -> string)
    requires m.flight.Some? && Superseded(m, m.flight.value)
    ensures var n := Step(m, Resolves(result), norm);
      && n.snapshot == m.snapshot && n.catchingUp == m.catchingUp
      && n.usage == if Reports(m, Resolves(result)).Some? then Charge(m.usage, Reports(m, Resolves(result)).value)
        else m.usage
  {
    ResolvedKeeps(m, result, norm);
    hide Charge, Resolved;
  }

  // ---- when requests begin ----

  /** Whether there is something to send, and enough of it, or it was asked for. */
  predicate Due(m: Machine, force: bool) {
    Read(m) < |m.messages| && (force || m.catchingUp || m.boundary || |m.messages| - Read(m) >= 5)
  }

  /** A free and visible engine sends a request exactly when one is due, about exactly the messages that are unread. */
  lemma RefreshedExactly(m: Machine, force: bool)
    requires Sound(m) && m.flight.None? && m.visible
    ensures var n := Refreshed(m, force);
      && (n.flight.Some? <==> Due(m, force)) && !n.dirty && !n.timer
      && (n.flight.Some? ==>
            && Covers(n.flight.value.batch, n.messages, Read(n), |n.messages|)
            && !Superseded(n, n.flight.value) && !n.flight.value.started && !n.boundary
            && (n.flight.value.recap <==> m.catchingUp || |m.messages| - Read(m) > 8))
      && (n.catchingUp <==> m.catchingUp && Read(m) < |m.messages|) && (n.flight.None? ==> n.boundary == m.boundary)
  {
    if !m.catchingUp {
      OmitsBeyondEight(m);
    }
    hide ReadBatch, CompactionFrom, Recorded, Covers, AcceptsUsage, FlightSound;
    BatchContinues(m);
    CoversCount(m);
  }

  lemma OmitsBeyondEight(m: Machine)
    requires Stream(m.messages) && !m.catchingUp
    ensures var batch := ReadBatch(m.messages, m.snapshot.lastId, false);
      batch.Some? ==> (batch.value.omitted > 0 <==> |m.messages| - Read(m) > 8)
  {
    BatchContinues(m);
  }

  lemma CoversCount(m: Machine)
    requires Stream(m.messages)
    ensures var batch := ReadBatch(m.messages, m.snapshot.lastId, m.catchingUp);
      batch.Some? ==> |batch.value.events| + batch.value.omitted == |m.messages| - Read(m) > 0
  {
    BatchContinues(m);
  }

  /** A hidden engine begins nothing until it is shown. */
  lemma HiddenBeginsNothing(m: Machine, event: Event, norm: string -> string)
    requires !m.visible && event != Show(true)
    ensures var n := Step(m, event, norm); !n.visible && (m.flight.None? ==> n.flight.None?)
  {
    StepFlight(m, event, norm);
    hide Step;
  }

  /** A disposed engine stays so, and neither records nor saves anything any more. */
  lemma DisposedRests(m: Machine, event: Event, norm: string -> string)
    requires m.disposed
    ensures var n := Step(m, event, norm); n.disposed && n.snapshot == m.snapshot && n.saves == m.saves
  {
    StepFrame(m, event, norm);
    hide Step;
  }
}
