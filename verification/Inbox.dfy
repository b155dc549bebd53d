/**
  One session's inbox: incoming messages are deduplicated, then injected at once or held in a queue.
  The host is seen as a log of what was sent to it; whether the session is idle, has a user interface
  or has input waiting, and the clock, are inputs of each step.
 */
module Inbox {
  import opened Prelude

  const DEDUPE_MAX := 1000
  const DEDUPE_MS := 60 * 60 * 1000
  const WAKE_RESERVATION_MS := 10_000

  datatype Entry = Entry(sender: string, messageId: string, isReply: bool)

  datatype InboundTrigger = Always | Replies | Never

  datatype Config = Config(humanFirst: bool, inboundTrigger: InboundTrigger)
  {
    predicate Triggers(e: Entry) {
      inboundTrigger == Always || (inboundTrigger == Replies && e.isReply)
    }
  }

  datatype Delivery = Trigger | Steer

  /** How the host is asked to take a message: starting a turn, plainly, or as a steer. */
  datatype How = StartTurn | Plain | AsSteer

  datatype Sent = Sent(entry: Entry, how: How, at: int)

  /** What a step reads of the session: `idle(k)` is what its k-th question is answered. */
  datatype Reading = Reading(idle: nat -> bool, hasUI: bool, pendingInput: bool, now: int)

  /** A message id seen from a sender, and when. The list is in the order of arrival. */
  datatype Seen = Seen(key: string, at: int)

  /** What the runtime keeps, and what the host was sent. */
  datatype Box = Box(held: seq<Entry>, heldTimer: bool, agentRunning: bool, wakeAt: int, seen: seq<Seen>,
                     sent: seq<Sent>)

  const EMPTY_BOX := Box([], false, false, 0, [], [])

  datatype Event =
    | Arrives(e: Entry, answersAsk: bool, r: Reading)
    | TimerFires(r: Reading)
    | AgentStarts(r: Reading)
    | AgentEnds
    | TurnEnds(assistantFinished: bool, r: Reading)
    | Controls(messageId: string)

  // ---- injecting ----

  predicate WakePending(wakeAt: int, now: int) {
    wakeAt > 0 && now - wakeAt < WAKE_RESERVATION_MS
  }

  function HowSent(c: Config, b: Box, e: Entry, delivery: Delivery, idle: bool, now: int): How {
    if delivery == Steer || !c.Triggers(e) then AsSteer
    else if idle && !WakePending(b.wakeAt, now) then StartTurn
    else Plain
  }

  function Injected(c: Config, b: Box, e: Entry, delivery: Delivery, idle: bool, now: int): Box {
    var how := HowSent(c, b, e, delivery, idle, now);
    b.(sent := b.sent + [Sent(e, how, now)], wakeAt := if how == StartTurn then now else b.wakeAt)
  }

  function Released(c: Config, b: Box, delivery: Delivery, idle: bool, now: int): Box
    requires b.held != []
  {
    Injected(c, b.(held := b.held[1..]), b.held[0], delivery, idle, now)
  }

  // ---- the queue ----

  function Routed(c: Config, b: Box, e: Entry, r: Reading): Box {
    var busy := !r.idle(0);
    if b.held != [] || (busy && (!b.agentRunning || !r.hasUI || c.humanFirst))
    then b.(held := b.held + [e], heldTimer := true)
    else Injected(c, b, e, if busy then Steer else Trigger, !busy, r.now)
  }

  /** Release held messages while the session can take them, asking from the k-th question on. */
  function Drained(c: Config, b: Box, r: Reading, k: nat): Box
    decreases |b.held|
  {
    if b.held == [] then b
    else if r.idle(k) then Drained(c, Released(c, b, Trigger, true, r.now), r, k + 1)
    else if b.agentRunning && r.hasUI then Drained(c, Released(c, b, Steer, false, r.now), r, k + 1)
    else b
  }

  /** The timer is stopped when nothing is held. */
  function Settled(b: Box): Box {
    if b.held == [] then b.(heldTimer := false) else b
  }

  function Flushed(c: Config, b: Box, r: Reading): Box {
    Settled(
      if !(c.humanFirst && r.hasUI) then Drained(c, b, r, 0)
      else if r.idle(0) && !WakePending(b.wakeAt, r.now) && b.held != [] then Released(c, b, Trigger, true, r.now)
      else b)
  }

  function TurnEnded(c: Config, b: Box, assistantFinished: bool, r: Reading): Box {
    if c.humanFirst && r.hasUI && assistantFinished && b.held != [] && b.agentRunning && !r.idle(0) && !r.pendingInput
    then Settled(Released(c, b, Steer, false, r.now))
    else b
  }

  function PositionOf(held: seq<Entry>, messageId: string, from: nat := 0): (r: Option<nat>)
    requires from <= |held|
    ensures r.Some? ==> from <= r.value < |held| && held[r.value].messageId == messageId
    ensures forall i :: from <= i < (if r.Some? then r.value else |held|) ==> held[i].messageId != messageId
    decreases |held| - from
  {
    if from == |held| then None
    else if held[from].messageId == messageId then Some(from)
    else PositionOf(held, messageId, from + 1)
  }

  /** A sender cancels or supersedes a message: it is dropped if it is still held. */
  function Controlled(b: Box, messageId: string): Box {
    match PositionOf(b.held, messageId)
    case None => b
    case Some(i) => b.(held := b.held[..i] + b.held[i + 1..])
  }

  // ---- duplicates ----

  function Key(e: Entry): string {
    e.sender + ['\0'] + e.messageId
  }

  function Unexpired(seen: seq<Seen>, now: int): (r: seq<Seen>)
    ensures |r| <= |seen|
  {
    if seen == [] then []
    else
      var rest := Unexpired(seen[..|seen| - 1], now);
      var last := seen[|seen| - 1];
      if now - last.at > DEDUPE_MS then rest else rest + [last]
  }

  predicate HasKey(seen: seq<Seen>, key: string) {
    exists i :: 0 <= i < |seen| && seen[i].key == key
  }

  function Newest(seen: seq<Seen>): seq<Seen> {
    if |seen| <= DEDUPE_MAX then seen else seen[|seen| - DEDUPE_MAX..]
  }

  predicate Duplicates(b: Box, e: Entry, now: int) {
    HasKey(Unexpired(b.seen, now), Key(e))
  }

  function Remembered(b: Box, e: Entry, now: int): Box {
    var recent := Unexpired(b.seen, now);
    b.(seen := if HasKey(recent, Key(e)) then recent else Newest(recent + [Seen(Key(e), now)]))
  }

  /** A message off either transport; one that an `ask` waits for does not reach the inbox. */
  function Received(c: Config, b: Box, e: Entry, answersAsk: bool, r: Reading): Box {
    var next := Remembered(b, e, r.now);
    if Duplicates(b, e, r.now) || answersAsk then next else Routed(c, next, e, r)
  }

  // ---- runs ----

  function Step(c: Config, b: Box, event: Event): Box {
    match event
    case Arrives(e, answersAsk, r) => Received(c, b, e, answersAsk, r)
    case TimerFires(r) => if b.heldTimer then Flushed(c, b, r) else b
    case AgentStarts(r) => Flushed(c, b.(wakeAt := 0, agentRunning := true), r)
    case AgentEnds => b.(agentRunning := false)
    case TurnEnds(assistantFinished, r) => TurnEnded(c, b, assistantFinished, r)
    case Controls(messageId) => Controlled(b, messageId)
  }

  /** What the inbox holds and has sent after some events, from the start of its session. */
  function Run(c: Config, events: seq<Event>): Box {
    if events == [] then EMPTY_BOX else Step(c, Run(c, events[..|events| - 1]), events[|events| - 1])
  }

  /** Senders whose ids hold no NUL have keys of their own. */
  lemma KeysDiffer(a: Entry, b: Entry)
    requires '\0' !in a.sender && '\0' !in b.sender && Key(a) == Key(b)
    ensures a.sender == b.sender && a.messageId == b.messageId
  {
    FieldsSplit(a.sender, a.messageId, b.sender, b.messageId, '\0');
  }
}
