/** The engine that keeps the record up to date: one request at a time, cancellable at any point. */
module MinimapEngine {
  import opened Prelude
  import opened Minimap
  import opened MinimapReplies
  import opened MinimapRestore

  // ---- the record ----

  /** The record as the engine holds it; its fields are updated in place. */
  class Record {
    var lastId: string
    var history: seq<Beat>
    var recent: seq<Beat>
    var now: string
    var focus: Option<seq<Topic>>

    ghost function View(): Snapshot
      reads this
    {
      Snapshot(lastId, history, recent, now, focus)
    }

    function Copy(): (s: Snapshot)
      reads this
      ensures s == View()
    {
      Snapshot(lastId, history, recent, now, focus)
    }

    constructor (s: Snapshot)
      ensures View() == s
    {
      lastId, history, recent, now, focus := s.lastId, s.history, s.recent, s.now, s.focus;
    }

    /** An invalid revision is refused before anything is changed. */
    method ApplySummary(batch: Batch, summary: Summary, recap: bool, norm: string -> string) returns (ok: bool)
      modifies this
      ensures ok <==> Apply(old(View()), batch, summary, recap, norm).Some?
      ensures View() == if ok then Apply(old(View()), batch, summary, recap, norm).value else old(View())
    {
      var before := Copy();
      if !ValidRevision(before, summary) {
        return false;
      }
      var replace := ReplacedIndex(before, summary, norm);
      recent := Revision(before, batch, summary, recap, norm);
      now := summary.now;
      focus := summary.focus;
      lastId := batch.to;
      if summary.beat == "" || replace.Some? {
        return true;
      }
      if |recent| >= RECENT_LIMIT {
        var compact := HistoryCompaction(history);
        if compact.Some? {
          var entries, indices := history, compact.value.indices;
          var items := seq(FOLD_SIZE, i requires 0 <= i < FOLD_SIZE => entries[indices[i]]);
          history := Combine(history, compact.value.indices, Merge(items, summary.compact, compact.value.level));
        }
        history := history + [Merge(recent[..FOLD_SIZE], summary.folded, 1)];
        recent := recent[FOLD_SIZE..];
      }
      recent := recent + [NewBeat(batch, summary, recap)];
      ok := true;
    }
  }

  // ---- the engine as a machine ----

  datatype ReportedUsage = ReportedUsage(input: nat, output: nat, cacheRead: nat, cacheWrite: nat, cost: Option<Cost>)

  type Cost = r: real | r >= 0.0

  /** What a request resolves with; `reply` is none when it is no JSON of the right shape. */
  datatype Completion = Completion(usage: Option<ReportedUsage>, failed: bool, reply: Option<Reply>)

  /** The one request that can be in progress, and the texts it asks for. */
  datatype Flight = Flight(batch: Batch, epoch: nat, recap: bool, fold: bool, compact: bool, started: bool,
                           aborted: bool)

  datatype Event =
    | Message(message: Minimap.Message)
    | Show(visible: bool)
    | SwitchModel
    | Notify(boundary: bool)
    | TimerFires
    | Refresh(force: bool)
    | RequestStarts
    | TimeLimit
    | Resolves(result: Completion)
    | Rejects
    | Dispose

  datatype Machine = Machine(
    snapshot: Snapshot, messages: seq<Minimap.Message>, usage: Usage,
    luna: bool, visible: bool, catchingUp: bool, generation: nat,
    timer: bool, dirty: bool, boundary: bool, disposed: bool,
    flight: Option<Flight>, saves: seq<Saved>)

  function Loaded(s: Snapshot, usage: Usage, messages: seq<Minimap.Message>): Machine {
    Machine(s, messages, usage, false, false, false, 0, false, false, false, false, None, [])
  }

  /** A call that has begun costs something, but nobody knows what yet. */
  function Begin(u: Usage): Usage {
    u.(requests := u.requests + 1, unknownTokens := u.unknownTokens + 1, unknownCost := u.unknownCost + 1)
  }

  /** What a finished call adds to the usage. */
  function Charge(u: Usage, r: ReportedUsage): Usage {
    u.(unknownTokens := u.unknownTokens - 1,
       input := u.input + r.input, output := u.output + r.output,
       cacheRead := u.cacheRead + r.cacheRead, cacheWrite := u.cacheWrite + r.cacheWrite,
       cost := if r.cost.Some? then u.cost + r.cost.value else u.cost,
       unknownCost := if r.cost.Some? then u.unknownCost - 1 else u.unknownCost)
  }

  function Persisted(m: Machine): Machine {
    if m.disposed then m else m.(saves := m.saves + [V2(m.snapshot, m.usage)])
  }

  function Aborted(m: Machine): Machine {
    if m.flight.Some? then m.(flight := Some(m.flight.value.(aborted := true))) else m
  }

  /** Note that something changed: a timer is set, unless one is or a request is in progress. */
  function Scheduled(m: Machine, boundary: bool): Machine {
    if !m.visible || m.disposed then m
    else m.(boundary := m.boundary || boundary, dirty := true, timer := m.timer || m.flight.None?)
  }

  function Shown(m: Machine, v: bool): Machine {
    if m.disposed || v == m.visible then m
    else if v then Scheduled(m.(visible := true, catchingUp := true), false)
    else Aborted(m.(visible := false, generation := m.generation + 1)).(timer := false)
  }

  function Switched(m: Machine): Machine {
    Scheduled(Persisted(Aborted(m.(luna := !m.luna, generation := m.generation + 1))), false)
  }

  function DisposedOf(m: Machine): Machine {
    Aborted(m.(disposed := true, visible := false, generation := m.generation + 1)).(timer := false)
  }

  /** Start a request, unless one is in progress, nothing is unread or too little is for a routine update. */
  function Refreshed(m: Machine, force: bool): Machine {
    if !m.visible || m.disposed || m.flight.Some? then m
    else
      var n := m.(timer := false, dirty := false);
      var batch := ReadBatch(m.messages, m.snapshot.lastId, m.catchingUp);
      if batch.None? then n.(catchingUp := false)
      else if force || m.catchingUp || m.boundary || |batch.value.events| + batch.value.omitted >= 5 then
        n.(boundary := false, flight := Some(FlightFor(n, batch.value)))
      else n
  }

  /**
    A request about a batch: a recap when catching up or when messages were left out, with the texts a
    fold will need.
   */
  function FlightFor(m: Machine, batch: Batch): Flight {
    var fold := |m.snapshot.recent| >= RECENT_LIMIT;
    Flight(batch, m.generation, m.catchingUp || batch.omitted > 0,
           fold, fold && CompactionFrom(m.snapshot.history, 1).Some?, false, false)
  }

  /** The provider reports that the call has begun; only the first report counts. */
  function Began(m: Machine): Machine {
    if m.flight.None? || m.flight.value.started then m
    else Persisted(m.(flight := Some(m.flight.value.(started := true)), usage := Begin(m.usage)))
  }

  /** Hidden, switched, disposed or out of time since the request was made. */
  predicate Superseded(m: Machine, f: Flight) {
    f.aborted || f.epoch != m.generation || m.disposed
  }

  /** Tokens of a started call are counted once it reports them, whatever becomes of its result. */
  function Accounted(m: Machine, f: Flight, usage: Option<ReportedUsage>): Machine {
    if f.started && usage.Some? then Persisted(m.(usage := Charge(m.usage, usage.value))) else m
  }

  /** The summary a result brings, if it may still be applied. */
  function Usable(m: Machine, f: Flight, result: Completion): Option<Summary> {
    if Superseded(m, f) || result.failed || result.reply.None? then None
    else ParseSummary(result.reply.value, f.fold, f.compact)
  }

  /** The record that a result leads to, if it leads to one. */
  function Outcome(m: Machine, f: Flight, result: Completion, norm: string -> string): Option<Snapshot> {
    var summary := Usable(m, f, result);
    if summary.None? then None else Apply(m.snapshot, f.batch, summary.value, f.recap, norm)
  }

  function Settled(m: Machine, f: Flight, result: Completion, norm: string -> string): Machine {
    var next := Outcome(m, f, result, norm);
    if next.None? then m else Persisted(m.(snapshot := next.value, catchingUp := false))
  }

  /** The request is over, whichever way: another is scheduled if something was notified meanwhile. */
  function Finished(m: Machine): Machine {
    var n := m.(flight := None);
    if !m.disposed && m.dirty then Scheduled(n, false) else n
  }

  function Resolved(m: Machine, result: Completion, norm: string -> string): Machine {
    if m.flight.None? then m
    else
      var f := m.flight.value;
      Finished(Settled(Accounted(m, f, result.usage), f, result, norm))
  }

  /** A message of the stream has an id, and one of its own. */
  function Received(messages: seq<Minimap.Message>, message: Minimap.Message): seq<Minimap.Message> {
    if message.id == "" || message.id in Ids(messages) then messages else messages + [message]
  }

  /** One event of any kind; events that cannot occur in the present state do nothing. */
  function Step(m: Machine, event: Event, norm: string -> string): Machine {
    match event
    case Message(message) => m.(messages := Received(m.messages, message))
    case Show(v) => Shown(m, v)
    case SwitchModel => Switched(m)
    case Notify(boundary) => Scheduled(m, boundary)
    case TimerFires => if m.timer then Refreshed(m.(timer := false), false) else m
    case Refresh(force) => Refreshed(m, force)
    case RequestStarts => Began(m)
    case TimeLimit => Aborted(m)
    case Resolves(result) => Resolved(m, result, norm)
    case Rejects => if m.flight.Some? then Finished(m) else m
    case Dispose => DisposedOf(m)
  }

  function Run(start: Machine, events: seq<Event>, norm: string -> string): Machine {
    if events == [] then start else Step(Run(start, events[..|events| - 1], norm), events[|events| - 1], norm)
  }

  // ---- the engine as it runs ----

  class Engine {
    const record: Record
    const norm: string -> string
    /** The append-only message stream the observer reads. */
    var messages: seq<Minimap.Message>
    var usage: Usage
    var luna: bool
    var visible: bool
    var catchingUp: bool
    var generation: nat
    var timer: bool
    var dirty: bool
    var boundary: bool
    var disposed: bool
    var flight: Option<Flight>
    /** What the observer was given to save. */
    var saves: seq<Saved>

    ghost function View(): Machine
      reads this, record
    {
      Machine(record.View(), messages, usage, luna, visible, catchingUp, generation, timer, dirty, boundary, disposed,
              flight, saves)
    }

    constructor (s: Snapshot, u: Usage, messages: seq<Minimap.Message>, norm: string -> string)
      ensures fresh(record) && View() == Loaded(s, u, messages) && this.norm == norm
    {
      record := new Record(s);
      this.norm := norm;
      this.messages := messages;
      usage := u;
      luna, visible, catchingUp, timer, dirty, boundary, disposed := false, false, false, false, false, false, false;
      generation, flight, saves := 0, None, [];
    }

    method Persist()
      modifies this`saves
      ensures View() == Persisted(old(View()))
    {
      if !disposed {
        saves := saves + [V2(record.Copy(), usage)];
      }
    }

    method Abort()
      modifies this`flight
      ensures View() == Aborted(old(View()))
    {
      if flight.Some? {
        flight := Some(flight.value.(aborted := true));
      }
    }

    method Append(m: Minimap.Message)
      modifies this`messages
      ensures View() == old(View()).(messages := Received(old(messages), m))
    {
      if m.id != "" && m.id !in Ids(messages) {
        messages := messages + [m];
      }
    }

    method Schedule(boundary: bool)
      modifies this`boundary, this`dirty, this`timer
      ensures View() == Scheduled(old(View()), boundary)
    {
      if !visible || disposed {
        return;
      }
      this.boundary := this.boundary || boundary;
      dirty := true;
      if flight.Some? || timer {
        return;
      }
      timer := true;
    }

    method SetVisible(v: bool)
      modifies this`visible, this`generation, this`flight, this`timer, this`catchingUp, this`boundary, this`dirty
      ensures View() == Shown(old(View()), v)
    {
      if disposed || v == visible {
        return;
      }
      visible := v;
      if !v {
        generation := generation + 1;
        Abort();
        timer := false;
      } else {
        catchingUp := true;
        Schedule(false);
      }
    }

    method ToggleModel()
      modifies this`luna, this`generation, this`flight, this`saves, this`boundary, this`dirty, this`timer
      ensures View() == Switched(old(View()))
    {
      hide Aborted, Persisted, Scheduled;
      ghost var m := View();
      luna := !luna;
      generation := generation + 1;
      assert View() == m.(luna := !m.luna, generation := m.generation + 1);
      Abort();
      Persist();
      Schedule(false);
    }

    method StartRefresh(force: bool)
      modifies this`timer, this`dirty, this`catchingUp, this`boundary, this`flight
      ensures View() == Refreshed(old(View()), force)
    {
      hide ReadBatch, FlightFor;
      if !visible || disposed || flight.Some? {
        return;
      }
      timer := false;
      dirty := false;
      var batch := ReadBatch(messages, record.lastId, catchingUp);
      if batch.None? {
        catchingUp := false;
        return;
      }
      if !force && !catchingUp && !boundary && |batch.value.events| + batch.value.omitted < 5 {
        return;
      }
      Send(batch.value);
    }

    /** Ask for a summary of a batch. */
    method Send(batch: Batch)
      modifies this`boundary, this`flight
      ensures View() == old(View()).(boundary := false, flight := Some(FlightFor(old(View()), batch)))
    {
      hide CompactionFrom;
      boundary := false;
      var fold := |record.recent| >= RECENT_LIMIT;
      var compact: Option<Compaction> := None;
      if fold {
        compact := HistoryCompaction(record.history);
      }
      flight := Some(Flight(batch, generation, catchingUp || batch.omitted > 0, fold, compact.Some?, false, false));
    }

    /** The timer fires: a routine refresh. */
    method TimerFired()
      requires timer
      modifies this`timer, this`dirty, this`catchingUp, this`boundary, this`flight
      ensures View() == Refreshed(old(View()).(timer := false), false)
    {
      hide Refreshed;
      timer := false;
      StartRefresh(false);
    }

    method Started()
      requires flight.Some?
      modifies this`flight, this`usage, this`saves
      ensures View() == Began(old(View()))
    {
      if flight.value.started {
        return;
      }
      flight := Some(flight.value.(started := true));
      usage := Begin(usage);
      Persist();
    }

    method Account(f: Flight, reported: Option<ReportedUsage>)
      modifies this`usage, this`saves
      ensures View() == Accounted(old(View()), f, reported)
    {
      hide Charge;
      if f.started && reported.Some? {
        usage := Charge(usage, reported.value);
        Persist();
      }
    }

    method Settle(f: Flight, result: Completion)
      modifies record, this`saves, this`catchingUp
      ensures View() == Settled(old(View()), f, result, norm)
    {
      hide Apply, ParseSummary;
      if f.aborted || f.epoch != generation || disposed {
        return;
      }
      if result.failed || result.reply.None? {
        return;
      }
      var summary := ParseSummary(result.reply.value, f.fold, f.compact);
      if summary.None? {
        return;
      }
      var ok := record.ApplySummary(f.batch, summary.value, f.recap, norm);
      if !ok {
        return;
      }
      catchingUp := false;
      Persist();
    }

    method Finish()
      modifies this`flight, this`boundary, this`dirty, this`timer
      ensures View() == Finished(old(View()))
    {
      flight := None;
      if !disposed && dirty {
        Schedule(false);
      }
    }

    /**
      The request resolves: reported tokens are counted even when the result is thrown away, then
      the result is applied, discarded or found invalid, and the engine is free again.
     */
    method Resolve(result: Completion)
      requires flight.Some?
      modifies record, this`usage, this`saves, this`flight, this`catchingUp, this`boundary, this`dirty, this`timer
      ensures View() == Resolved(old(View()), result, norm)
    {
      hide Accounted, Settled, Finished;
      var f := flight.value;
      Account(f, result.usage);
      Settle(f, result);
      Finish();
    }

    method DisposeEngine()
      modifies this`disposed, this`visible, this`generation, this`flight, this`timer
      ensures View() == DisposedOf(old(View()))
    {
      disposed := true;
      visible := false;
      generation := generation + 1;
      ghost var m := View();
      Abort();
      hide Aborted;
      timer := false;
      assert View() == Aborted(m).(timer := false);
    }

    /** One event of any kind; events that cannot occur in the present state do nothing. */
    method Handle(event: Event)
      modifies this, record
      ensures View() == Step(old(View()), event, norm)
    {
      hide Refreshed, Resolved, Switched, Shown, Scheduled, Began, DisposedOf, Aborted, Finished, Received;
      match event {
        case Message(m) => Append(m);
        case Show(v) => SetVisible(v);
        case SwitchModel => ToggleModel();
        case Notify(b) => Schedule(b);
        case TimerFires =>
          if timer {
            TimerFired();
          }
        case Refresh(force) => StartRefresh(force);
        case RequestStarts =>
          if flight.Some? {
            Started();
          } else {
            assert Began(View()) == View() by {
              NoneBegan(View());
            }
          }
        case TimeLimit => Abort();
        case Resolves(result) =>
          if flight.Some? {
            Resolve(result);
          } else {
            assert Resolved(View(), result, norm) == View() by {
              NoneResolved(View(), result, norm);
            }
          }
        case Rejects =>
          if flight.Some? {
            Finish();
          }
        case Dispose => DisposeEngine();
      }
    }
  }

  lemma NoneBegan(m: Machine)
    requires m.flight.None?
    ensures Began(m) == m
  {
  }

  lemma NoneResolved(m: Machine, result: Completion, norm: string -> string)
    requires m.flight.None?
    ensures Resolved(m, result, norm) == m
  {
  }

  /** An engine over a record, event by event. */
  method RunEngine(s: Snapshot, u: Usage, messages: seq<Minimap.Message>, events: seq<Event>, norm: string -> string)
    returns (engine: Engine)
    ensures fresh(engine) && engine.View() == Run(Loaded(s, u, messages), events, norm)
  {
    hide Step;
    engine := new Engine(s, u, messages, norm);
    for i := 0 to |events|
      invariant fresh(engine) && fresh(engine.record) && engine.norm == norm
      invariant engine.View() == Run(Loaded(s, u, messages), events[..i], norm)
    {
      assert events[..i + 1][..i] == events[..i];
      engine.Handle(events[i]);
    }
    assert events[..|events|] == events;
  }
}
