/** The inbox as the runtime keeps it: an object whose fields each event changes. */
module InboxRun {
  import opened Prelude
  import opened Inbox

  class Intercom {
    const config: Config
    var held: seq<Entry>
    var heldTimer: bool
    var agentRunning: bool
    var wakeAt: int
    var seen: seq<Seen>
    /** What the host was sent. */
    var sent: seq<Sent>

    function View(): Box
      reads this
    {
      Box(held, heldTimer, agentRunning, wakeAt, seen, sent)
    }

    constructor (config: Config)
      ensures this.config == config && View() == EMPTY_BOX
    {
      this.config := config;
      held, heldTimer, agentRunning, wakeAt, seen, sent := [], false, false, 0, [], [];
    }

    /**
      Hand a message to the host. A turn is started only for a message that may trigger one, in an
      idle session, when none was started within the reservation.
     */
    method Inject(e: Entry, delivery: Delivery, idle: bool, now: int)
      modifies this`sent, this`wakeAt
      ensures View() == Injected(config, old(View()), e, delivery, idle, now)
    {
      var trigger := delivery == Trigger && config.Triggers(e);
      var startTurn := trigger && !WakePending(wakeAt, now) && idle;
      if startTurn {
        wakeAt := now;
      }
      sent := sent + [Sent(e, if startTurn then StartTurn else if trigger then Plain else AsSteer, now)];
    }

    /** Take the first held message and inject it. */
    method Release(delivery: Delivery, idle: bool, now: int)
      requires held != []
      modifies this`sent, this`wakeAt, this`held
      ensures View() == Released(config, old(View()), delivery, idle, now)
    {
      var e := held[0];
      held := held[1..];
      Inject(e, delivery, idle, now);
    }

    /** A new message: held behind the others, or until the session can take it, and injected otherwise. */
    method Route(e: Entry, r: Reading)
      modifies this`sent, this`wakeAt, this`held, this`heldTimer
      ensures View() == Routed(config, old(View()), e, r)
    {
      var busy := !r.idle(0);
      var humanFirst := config.humanFirst && r.hasUI;
      if held != [] || (busy && (!agentRunning || !r.hasUI || humanFirst)) {
        held := held + [e];
        heldTimer := true;
        return;
      }
      Inject(e, if busy then Steer else Trigger, !busy, r.now);
    }

    /** The timer's work, and the agent's start: release what the session can take. */
    method FlushHeld(r: Reading)
      modifies this`sent, this`wakeAt, this`held, this`heldTimer
      ensures View() == Flushed(config, old(View()), r)
    {
      hide Released, WakePending;
      if config.humanFirst && r.hasUI {
        if r.idle(0) && !WakePending(wakeAt, r.now) && held != [] {
          Release(Trigger, true, r.now);
        }
      } else {
        var k := 0;
        while held != []
          invariant Drained(config, View(), r, k) == Drained(config, old(View()), r, 0)
          decreases |held|
        {
          ReleasedShorter(config, View(), if r.idle(k) then Trigger else Steer, r.idle(k), r.now);
          if r.idle(k) {
            Release(Trigger, true, r.now);
          } else if agentRunning && r.hasUI {
            Release(Steer, false, r.now);
          } else {
            break;
          }
          k := k + 1;
        }
      }
      if held == [] {
        heldTimer := false;
      }
    }

    lemma ReleasedShorter(c: Config, b: Box, delivery: Delivery, idle: bool, now: int)
      requires b.held != []
      ensures |Released(c, b, delivery, idle, now).held| < |b.held|
    {
    }

    /** A finished turn of a human-first session lets one held message through, as a steer. */
    method TurnEnd(assistantFinished: bool, r: Reading)
      modifies this`sent, this`wakeAt, this`held, this`heldTimer
      ensures View() == TurnEnded(config, old(View()), assistantFinished, r)
    {
      var humanFirst := config.humanFirst && r.hasUI;
      if humanFirst && assistantFinished && held != [] && agentRunning && !r.idle(0) && !r.pendingInput {
        Release(Steer, false, r.now);
        if held == [] {
          heldTimer := false;
        }
      }
    }

    method AgentStart(r: Reading)
      modifies this`sent, this`wakeAt, this`held, this`heldTimer, this`agentRunning
      ensures View() == Step(config, old(View()), AgentStarts(r))
    {
      hide Flushed;
      wakeAt := 0;
      agentRunning := true;
      FlushHeld(r);
    }

    method AgentEnd()
      modifies this`agentRunning
      ensures View() == Step(config, old(View()), AgentEnds)
    {
      agentRunning := false;
    }

    /** A sender cancels or supersedes a message: it is dropped if it is still held, and nothing else is. */
    method Control(messageId: string)
      modifies this`held
      ensures View() == Controlled(old(View()), messageId)
    {
      var index := 0;
      while index < |held| && held[index].messageId != messageId
        invariant index <= |held| && PositionOf(held, messageId) == PositionOf(held, messageId, index)
      {
        index := index + 1;
      }
      if index < |held| {
        held := held[..index] + held[index + 1..];
      }
    }

    // ---- arrivals ----

    /** Whether a message was seen before; it is remembered from now on. */
    method Duplicate(e: Entry, now: int) returns (duplicate: bool)
      modifies this`seen
      ensures duplicate <==> Duplicates(old(View()), e, now)
      ensures View() == Remembered(old(View()), e, now)
    {
      hide Unexpired, Newest, HasKey;
      Expire(now);
      duplicate := HasKey(seen, Key(e));
      if !duplicate {
        seen := seen + [Seen(Key(e), now)];
        Evict();
      }
    }

    /** Forget what is an hour old. */
    method Expire(now: int)
      modifies this`seen
      ensures seen == Unexpired(old(seen), now)
    {
      var before := seen;
      seen := [];
      for i := 0 to |before|
        invariant seen == Unexpired(before[..i], now)
      {
        assert before[..i + 1][..i] == before[..i];
        if now - before[i].at <= DEDUPE_MS {
          seen := seen + [before[i]];
        }
      }
      assert before[..|before|] == before;
    }

    /** Forget the oldest while there are too many. */
    method Evict()
      modifies this`seen
      ensures seen == Newest(old(seen))
    {
      while |seen| > DEDUPE_MAX
        invariant Newest(seen) == Newest(old(seen))
        decreases |seen|
      {
        seen := seen[1..];
      }
    }

    /** A message off either transport; one that an `ask` waits for does not reach the inbox. */
    method Receive(e: Entry, answersAsk: bool, r: Reading)
      modifies this
      ensures View() == Received(config, old(View()), e, answersAsk, r)
    {
      hide Duplicates, Remembered, Routed;
      var duplicate := Duplicate(e, r.now);
      if duplicate || answersAsk {
        return;
      }
      Route(e, r);
    }

    /** One event, as the runtime handles it. */
    method Handle(event: Event)
      modifies this
      ensures View() == Step(config, old(View()), event)
    {
      hide Received, Flushed, TurnEnded, Controlled;
      match event {
        case Arrives(e, answersAsk, r) => Receive(e, answersAsk, r);
        case TimerFires(r) =>
          if heldTimer {
            FlushHeld(r);
          }
        case AgentStarts(r) => AgentStart(r);
        case AgentEnds => AgentEnd();
        case TurnEnds(assistantFinished, r) => TurnEnd(assistantFinished, r);
        case Controls(messageId) => Control(messageId);
      }
    }
  }

  /** A session's inbox, event by event. */
  method RunSession(config: Config, events: seq<Event>) returns (inbox: Intercom)
    ensures fresh(inbox) && inbox.View() == Run(config, events)
  {
    hide Step;
    inbox := new Intercom(config);
    for k := 0 to |events|
      invariant fresh(inbox) && inbox.config == config && inbox.View() == Run(config, events[..k])
    {
      assert events[..k + 1][..k] == events[..k];
      inbox.Handle(events[k]);
    }
    assert events[..|events|] == events;
  }
}
