/** How each message is sent and when each is held, said of the session's answers and of what was sent before. */
module InboxSends {
  import opened Prelude
  import opened Inbox
  import InboxOrder

  // ---- how a message is sent ----

  /** Whether the settings let this message start a turn. */
  predicate MayStart(c: Config, e: Entry) {
    match c.inboundTrigger
    case Always => true
    case Replies => e.isReply
    case Never => false
  }

  /** One of the messages from the given one on, before message q, started a turn less than ten seconds ago. */
  ghost predicate StartedLately(sent: seq<Sent>, from: nat, q: nat, now: int) {
    exists j :: from <= j < q && j < |sent| && sent[j].how == StartTurn && now - sent[j].at < 10_000
  }

  /**
    Message q was sent as it should be: as a steer exactly when the session answered that it is busy or the
    message may not start a turn; starting one exactly when otherwise none was started within ten seconds.
    The session was asked about message `first` first, and then about each in turn.
   */
  ghost predicate SentWell(c: Config, sent: seq<Sent>, from: nat, q: nat, first: int, r: Reading)
    requires q < |sent| && first <= q
  {
    var idle := r.idle(q - first);
    && sent[q].at == r.now
    && (sent[q].how == AsSteer <==> !idle || !MayStart(c, sent[q].entry))
    && (sent[q].how == StartTurn <==>
          idle && MayStart(c, sent[q].entry) && !StartedLately(sent, from, q, r.now))
  }

  /** The reservation is that of the last message that started a turn since the given one, and the latest. */
  ghost predicate Reserved(sent: seq<Sent>, from: nat, wakeAt: int) {
    if wakeAt == 0 then forall j :: from <= j < |sent| ==> sent[j].how != StartTurn
    else
      && wakeAt > 0 && (exists j :: from <= j < |sent| && sent[j].how == StartTurn && sent[j].at == wakeAt)
      && forall j :: from <= j < |sent| && sent[j].how == StartTurn ==> sent[j].at <= wakeAt
  }

  lemma PendingExactly(sent: seq<Sent>, from: nat, wakeAt: int, now: int)
    requires Reserved(sent, from, wakeAt)
    ensures WakePending(wakeAt, now) <==> StartedLately(sent, from, |sent|, now)
  {
    if wakeAt > 0 {
      var j :| from <= j < |sent| && sent[j].how == StartTurn && sent[j].at == wakeAt;
    }
  }

  /** From one box to a later one, the messages sent were sent well. */
  ghost predicate Sends(c: Config, b: Box, n: Box, from: nat, first: int, r: Reading)
    requires first <= |b.sent|
  {
    && b.sent <= n.sent && Reserved(n.sent, from, n.wakeAt)
    && forall q :: |b.sent| <= q < |n.sent| ==> SentWell(c, n.sent, from, q, first, r)
  }

  lemma InjectedReserved(b: Box, n: Box, from: nat, now: int)
    requires Reserved(b.sent, from, b.wakeAt) && now > 0 && from <= |b.sent|
    requires |n.sent| == |b.sent| + 1 && (forall j :: 0 <= j < |b.sent| ==> n.sent[j] == b.sent[j])
    requires var x := n.sent[|b.sent|]; x.at == now && n.wakeAt == if x.how == StartTurn then now else b.wakeAt
    requires n.sent[|b.sent|].how == StartTurn ==> !WakePending(b.wakeAt, now)
    ensures Reserved(n.sent, from, n.wakeAt)
  {
    if n.sent[|b.sent|].how != StartTurn && b.wakeAt != 0 {
      var j :| from <= j < |b.sent| && b.sent[j].how == StartTurn && b.sent[j].at == b.wakeAt;
      assert n.sent[j] == b.sent[j];
    }
  }

  lemma InjectedSends(c: Config, b: Box, e: Entry, r: Reading, first: int, from: nat)
    requires Reserved(b.sent, from, b.wakeAt) && r.now > 0 && from <= |b.sent| && first <= |b.sent|
    ensures var idle := r.idle(|b.sent| - first);
      var n := Injected(c, b, e, if idle then Trigger else Steer, idle, r.now);
      Sends(c, b, n, from, first, r) && |n.sent| == |b.sent| + 1 && n.held == b.held
  {
    var idle := r.idle(|b.sent| - first);
    var n := Injected(c, b, e, if idle then Trigger else Steer, idle, r.now);
    InjectedWell(c, b, e, r, first, from);
    InjectedReserved(b, n, from, r.now);
    hide SentWell, Reserved;
  }

  lemma InjectedWell(c: Config, b: Box, e: Entry, r: Reading, first: int, from: nat)
    requires Reserved(b.sent, from, b.wakeAt) && from <= |b.sent| && first <= |b.sent|
    ensures var idle := r.idle(|b.sent| - first);
      var n := Injected(c, b, e, if idle then Trigger else Steer, idle, r.now);
      SentWell(c, n.sent, from, |b.sent|, first, r)
  {
    PendingExactly(b.sent, from, b.wakeAt, r.now);
    hide Reserved, WakePending;
    var idle := r.idle(|b.sent| - first);
    var n := Injected(c, b, e, if idle then Trigger else Steer, idle, r.now);
    assert forall j :: 0 <= j < |b.sent| ==> n.sent[j] == b.sent[j];
  }

  lemma ReleasedSends(c: Config, b: Box, r: Reading, first: int, from: nat)
    requires Reserved(b.sent, from, b.wakeAt) && r.now > 0 && from <= |b.sent| && first <= |b.sent| && b.held != []
    ensures var idle := r.idle(|b.sent| - first);
      var n := Released(c, b, if idle then Trigger else Steer, idle, r.now);
      Sends(c, b, n, from, first, r) && |n.sent| == |b.sent| + 1
  {
    hide Injected, Reserved, SentWell;
    InjectedSends(c, b.(held := b.held[1..]), b.held[0], r, first, from);
  }

  lemma ReleasedHolds(c: Config, b: Box, delivery: Delivery, idle: bool, now: int)
    requires b.held != []
    ensures var n := Released(c, b, delivery, idle, now);
      && n.held == b.held[1..] && n.heldTimer == b.heldTimer && n.agentRunning == b.agentRunning && n.seen == b.seen
      && |n.sent| == |b.sent| + 1 && n.sent[..|b.sent|] == b.sent && n.sent[|b.sent|].entry == b.held[0]
  {
    hide HowSent;
  }

  lemma SendsTwice(c: Config, a: Box, b: Box, n: Box, from: nat, first: int, r: Reading)
    requires first <= |a.sent| && from <= |a.sent| && Sends(c, a, b, from, first, r)
    requires Sends(c, b, n, from, first, r)
    ensures Sends(c, a, n, from, first, r)
  {
    forall q | |a.sent| <= q < |n.sent|
      ensures SentWell(c, n.sent, from, q, first, r)
    {
      if q < |b.sent| {
        assert SentWell(c, b.sent, from, q, first, r);
        assert forall j :: 0 <= j <= q ==> n.sent[j] == b.sent[j];
        assert StartedLately(n.sent, from, q, r.now) <==> StartedLately(b.sent, from, q, r.now);
      }
    }
    hide Reserved;
  }

  lemma SendsNothing(c: Config, b: Box, n: Box, from: nat, first: int, r: Reading)
    requires first <= |b.sent| && Reserved(b.sent, from, b.wakeAt) && n.sent == b.sent && n.wakeAt == b.wakeAt
    ensures Sends(c, b, n, from, first, r)
  {
  }

  lemma {:induction false} DrainedSends(c: Config, b: Box, r: Reading, k: nat, from: nat)
    requires Reserved(b.sent, from, b.wakeAt) && r.now > 0 && from <= |b.sent|
    ensures Sends(c, b, Drained(c, b, r, k), from, |b.sent| - k, r)
    decreases |b.held|
  {
    hide Released, Reserved, SentWell;
    var first := |b.sent| - k;
    SendsNothing(c, b, b, from, first, r);
    if b.held != [] && (r.idle(k) || (b.agentRunning && r.hasUI)) {
      ReleasedSends(c, b, r, first, from);
      ReleasedHolds(c, b, if r.idle(k) then Trigger else Steer, r.idle(k), r.now);
      var n := Released(c, b, if r.idle(k) then Trigger else Steer, r.idle(k), r.now);
      DrainedSends(c, n, r, k + 1, from);
      SendsTwice(c, b, n, Drained(c, n, r, k + 1), from, first, r);
    }
  }

  lemma FlushedSends(c: Config, b: Box, r: Reading, from: nat)
    requires Reserved(b.sent, from, b.wakeAt) && r.now > 0 && from <= |b.sent|
    ensures Sends(c, b, Flushed(c, b, r), from, |b.sent|, r)
  {
    hide Drained, Released, Reserved, SentWell;
    DrainedSends(c, b, r, 0, from);
    SendsNothing(c, b, b, from, |b.sent|, r);
    if b.held != [] {
      ReleasedSends(c, b, r, |b.sent|, from);
    }
  }

  /** What an event reads of the session. */
  function ReadingOf(event: Event): Option<Reading> {
    match event
    case Arrives(_, _, r) => Some(r)
    case TimerFires(r) => Some(r)
    case AgentStarts(r) => Some(r)
    case TurnEnds(_, r) => Some(r)
    case _ => None
  }

  lemma StepSends(c: Config, b: Box, event: Event, from: nat)
    requires Reserved(b.sent, from, b.wakeAt) && from <= |b.sent|
    requires ReadingOf(event).Some? ==> ReadingOf(event).value.now > 0
    ensures var start, n := if event.AgentStarts? then |b.sent| else from, Step(c, b, event);
      match ReadingOf(event)
      case Some(r) => Sends(c, b, n, start, |b.sent|, r)
      case None => n.sent == b.sent && n.wakeAt == b.wakeAt
  {
    hide Flushed, Released, Injected, Reserved, SentWell, Remembered, Duplicates;
    match event {
      case Arrives(e, answersAsk, r) =>
        var m := Remembered(b, e, r.now);
        RememberedSends(b, e, r.now);
        SendsNothing(c, b, m, from, |b.sent|, r);
        SendsNothing(c, b, m.(held := m.held + [e], heldTimer := true), from, |b.sent|, r);
        InjectedSends(c, m, e, r, |b.sent|, from);
      case TimerFires(r) =>
        FlushedSends(c, b, r, from);
        SendsNothing(c, b, b, from, |b.sent|, r);
      case AgentStarts(r) =>
        NoneReserved(b.sent);
        FlushedSends(c, b.(wakeAt := 0, agentRunning := true), r, |b.sent|);
      case AgentEnds =>
      case TurnEnds(assistantFinished, r) =>
        SendsNothing(c, b, b, from, |b.sent|, r);
        if b.held != [] {
          ReleasedSends(c, b, r, |b.sent|, from);
        }
      case Controls(messageId) =>
    }
  }

  lemma RememberedSends(b: Box, e: Entry, now: int)
    ensures Remembered(b, e, now).sent == b.sent && Remembered(b, e, now).wakeAt == b.wakeAt
  {
  }

  lemma NoneReserved(sent: seq<Sent>)
    ensures Reserved(sent, |sent|, 0)
  {
  }

  /** How many messages had been sent when the agent last began. */
  function SentBefore(c: Config, events: seq<Event>): nat {
    if events == [] then 0
    else
      var before := events[..|events| - 1];
      if events[|events| - 1].AgentStarts? then |Run(c, before).sent| else SentBefore(c, before)
  }

  lemma {:induction false} RunReserved(c: Config, events: seq<Event>)
    requires InboxOrder.PastEpoch(events)
    ensures SentBefore(c, events) <= |Run(c, events).sent|
    ensures Reserved(Run(c, events).sent, SentBefore(c, events), Run(c, events).wakeAt)
  {
    hide Step, Reserved, SentWell;
    if events == [] {
      NoneReserved([]);
    } else {
      var before := events[..|events| - 1];
      assert InboxOrder.PastEpoch(before);
      RunReserved(c, before);
      StepSends(c, Run(c, before), events[|events| - 1], SentBefore(c, before));
    }
  }

  /**
    Over every run, by any clock past the epoch: a message is sent only by an event that reads the session;
    as a steer exactly when the session answered that it is busy or the message may not start a turn; and
    starting a turn exactly when otherwise none was started within ten seconds since the agent last began.
   */
  lemma SentAsItShould(c: Config, events: seq<Event>, q: nat)
    requires events != [] && InboxOrder.PastEpoch(events)
    requires |Run(c, events[..|events| - 1]).sent| <= q < |Run(c, events).sent|
    ensures ReadingOf(events[|events| - 1]).Some?
    ensures SentWell(c, Run(c, events).sent, SentBefore(c, events), q, |Run(c, events[..|events| - 1]).sent|,
                     ReadingOf(events[|events| - 1]).value)
  {
    hide Step, Reserved, SentWell;
    var before := events[..|events| - 1];
    assert InboxOrder.PastEpoch(before);
    RunReserved(c, before);
    StepSends(c, Run(c, before), events[|events| - 1], SentBefore(c, before));
  }

  // ---- what is held ----

  /**
    A message that reaches the inbox is held exactly behind others, or when the session is busy and
    cannot take a steer.
   */
  lemma ArrivalEffect(c: Config, b: Box, e: Entry, r: Reading)
    requires !Duplicates(b, e, r.now)
    ensures var n := Step(c, b, Arrives(e, false, r));
      var cannot := !r.idle(0) && (!b.agentRunning || !r.hasUI || c.humanFirst);
      && n.agentRunning == b.agentRunning
      && if b.held != [] || cannot then n.held == b.held + [e] && n.sent == b.sent && n.heldTimer
         else n.held == [] && |n.sent| == |b.sent| + 1 && n.sent[|b.sent|].entry == e
  {
    hide Duplicates, HowSent;
  }

  /** A message that an ask waits for changes nothing but what is remembered, and so does a repeated one. */
  lemma TakenEffect(c: Config, b: Box, e: Entry, answersAsk: bool, r: Reading)
    requires answersAsk || Duplicates(b, e, r.now)
    ensures Step(c, b, Arrives(e, answersAsk, r)) == b.(seen := Step(c, b, Arrives(e, answersAsk, r)).seen)
  {
    hide Duplicates, Routed;
  }

  /** Whether the session can take the k-th message that a flush would release. */
  predicate Takes(c: Config, b: Box, r: Reading, k: nat) {
    if c.humanFirst && r.hasUI then k == 0 && r.idle(0) && !(b.wakeAt > 0 && r.now - b.wakeAt < 10_000)
    else r.idle(k) || (b.agentRunning && r.hasUI)
  }

  /** The first m held messages were sent, in order, and nothing else happened but to the reservation and the timer. */
  ghost predicate Releases(b: Box, n: Box, m: nat) {
    && m <= |b.held| && n.held == b.held[m..] && |n.sent| == |b.sent| + m && b.sent <= n.sent
    && (forall k :: 0 <= k < m ==> n.sent[|b.sent| + k].entry == b.held[k])
    && n.agentRunning == b.agentRunning && n.seen == b.seen
  }

  lemma {:induction false} DrainedReleases(c: Config, b: Box, r: Reading, k: nat) returns (m: nat)
    ensures Releases(b, Drained(c, b, r, k), m) && Drained(c, b, r, k).heldTimer == b.heldTimer
    ensures forall i :: k <= i < k + m ==> r.idle(i) || (b.agentRunning && r.hasUI)
    ensures m < |b.held| ==> !(r.idle(k + m) || (b.agentRunning && r.hasUI))
    decreases |b.held|
  {
    hide Released;
    if b.held == [] || !(r.idle(k) || (b.agentRunning && r.hasUI)) {
      return 0;
    }
    var n := Released(c, b, if r.idle(k) then Trigger else Steer, r.idle(k), r.now);
    ReleasedHolds(c, b, if r.idle(k) then Trigger else Steer, r.idle(k), r.now);
    m := DrainedReleases(c, n, r, k + 1);
    hide Drained;
    ReleasesNext(b, n, Drained(c, n, r, k + 1), m);
    m := m + 1;
  }

  lemma ReleasesNext(b: Box, n: Box, d: Box, m: nat)
    requires b.held != [] && Releases(b, n, 1) && Releases(n, d, m)
    ensures Releases(b, d, m + 1)
  {
  }

  /** A flush releases held messages from the front for as long as the session takes them, and stops an idle timer. */
  lemma FlushEffect(c: Config, b: Box, r: Reading) returns (m: nat)
    ensures var n := Flushed(c, b, r);
      && Releases(b, n, m)
      && (forall k :: 0 <= k < m ==> Takes(c, b, r, k)) && (m < |b.held| ==> !Takes(c, b, r, m))
      && n.heldTimer == (b.heldTimer && n.held != [])
  {
    hide Released, Drained;
    if !(c.humanFirst && r.hasUI) {
      m := DrainedReleases(c, b, r, 0);
    } else if b.held != [] && Takes(c, b, r, 0) {
      ReleasedHolds(c, b, Trigger, true, r.now);
      m := 1;
    } else {
      m := 0;
    }
  }

  /**
    When the agent starts, and when the timer fires, held messages are released from the front for as long
    as the session takes them; once the agent has started it runs, and no turn is reserved before that.
   */
  lemma FlushesWhen(c: Config, b: Box, event: Event) returns (m: nat)
    requires event.AgentStarts? || (event.TimerFires? && b.heldTimer)
    ensures var n := Step(c, b, event);
      var a := if event.AgentStarts? then b.(wakeAt := 0, agentRunning := true) else b;
      && Releases(a, n, m)
      && (forall k :: 0 <= k < m ==> Takes(c, a, event.r, k)) && (m < |b.held| ==> !Takes(c, a, event.r, m))
      && n.heldTimer == (b.heldTimer && n.held != [])
  {
    hide Flushed, Takes, Releases;
    m := FlushEffect(c, if event.AgentStarts? then b.(wakeAt := 0, agentRunning := true) else b, event.r);
  }

  /**
    Where a human comes first, a finished turn of a running agent lets one held message in as a steer, unless
    the session is idle or has input waiting; otherwise the end of a turn changes nothing.
   */
  lemma TurnEndEffect(c: Config, b: Box, finished: bool, r: Reading)
    ensures var n := Step(c, b, TurnEnds(finished, r));
      if c.humanFirst && r.hasUI && finished && b.held != [] && b.agentRunning && !r.idle(0) && !r.pendingInput then
        && n.held == b.held[1..] && n.sent == b.sent + [Sent(b.held[0], AsSteer, r.now)]
        && n.heldTimer == (b.heldTimer && |b.held| > 1)
        && n == b.(held := n.held, sent := n.sent, heldTimer := n.heldTimer)
      else n == b
  {
  }

  /** The end of the agent is remembered, and a timer that does not run changes nothing. */
  lemma QuietEffect(c: Config, b: Box, r: Reading)
    ensures Step(c, b, AgentEnds) == b.(agentRunning := false)
    ensures !b.heldTimer ==> Step(c, b, TimerFires(r)) == b
  {
  }

  /** The place of the first held message of that id. */
  predicate FirstHeld(held: seq<Entry>, messageId: string, i: nat) {
    i < |held| && held[i].messageId == messageId && forall j :: 0 <= j < i ==> held[j].messageId != messageId
  }

  /** A control drops the first held message of its id, and does nothing when none is held. */
  lemma ControlEffect(c: Config, b: Box, messageId: string, i: nat)
    ensures FirstHeld(b.held, messageId, i) ==>
      Step(c, b, Controls(messageId)) == b.(held := b.held[..i] + b.held[i + 1..])
    ensures (forall e :: e in b.held ==> e.messageId != messageId) ==> Step(c, b, Controls(messageId)) == b
  {
    var found := PositionOf(b.held, messageId);
    hide PositionOf;
    assert found.Some? ==> b.held[found.value] in b.held;
  }
}
