/** What the inbox keeps over every run: the order of messages, what counts as a duplicate, and when turns start. */
module InboxOrder {
  import opened Prelude
  import opened Inbox

  // ---- which arrivals count ----

  /** The clock does not go back between arrivals. */
  ghost predicate Timely(events: seq<Event>) {
    forall i, k :: 0 <= i < k < |events| ==> InTurn(events[i], events[k])
  }

  predicate InTurn(a: Event, b: Event) {
    a.Arrives? && b.Arrives? ==> a.r.now <= b.r.now
  }

  /** Event `n` brings a message that one of the last 1000 accepted arrivals brought within the hour. */
  ghost predicate Repeats(events: seq<Event>, accepted: seq<nat>, n: nat)
    requires n < |events| && events[n].Arrives?
  {
    exists p :: 0 <= p < |accepted| && |accepted| - p <= 1000 && RepeatOf(events, accepted[p], n)
  }

  ghost predicate RepeatOf(events: seq<Event>, i: nat, n: nat)
    requires n < |events| && events[n].Arrives?
  {
    && i < n && events[i].Arrives? && Key(events[i].e) == Key(events[n].e)
    && events[n].r.now - events[i].r.now <= 3_600_000
  }

  /** The arrivals that are no repeats of accepted ones, in order. */
  ghost function AcceptedAt(events: seq<Event>): (a: seq<nat>)
    ensures forall p :: 0 <= p < |a| ==> a[p] < |events| && events[a[p]].Arrives?
    ensures forall p, q :: 0 <= p < q < |a| ==> a[p] < a[q]
  {
    if events == [] then []
    else
      var n := |events| - 1;
      var before := AcceptedAt(events[..n]);
      if events[n].Arrives? && !Repeats(events, before, n) then before + [n] else before
  }

  /** The messages that reach the inbox: the accepted ones that no `ask` waits for. */
  ghost function Reaching(events: seq<Event>): seq<Entry> {
    if events == [] then []
    else
      var n := |events| - 1;
      var rest := Reaching(events[..n]);
      if events[n].Arrives? && n in AcceptedAt(events) && !events[n].answersAsk then rest + [events[n].e] else rest
  }

  // ---- what is remembered ----

  ghost function SeenOf(events: seq<Event>, accepted: seq<nat>): (s: seq<Seen>)
    requires forall p :: 0 <= p < |accepted| ==> accepted[p] < |events| && events[accepted[p]].Arrives?
    ensures |s| == |accepted|
    ensures forall p :: 0 <= p < |s| ==> s[p] == Seen(Key(events[accepted[p]].e), events[accepted[p]].r.now)
  {
    seq(|accepted|, p requires 0 <= p < |accepted| => Seen(Key(events[accepted[p]].e), events[accepted[p]].r.now))
  }

  /** The time of the last arrival. */
  ghost function Clock(events: seq<Event>): int {
    if events == [] then 0
    else if events[|events| - 1].Arrives? then events[|events| - 1].r.now
    else Clock(events[..|events| - 1])
  }

  ghost predicate InTime(s: seq<Seen>) {
    forall i, j :: 0 <= i < j < |s| ==> s[i].at <= s[j].at
  }

  lemma {:induction false} UnexpiredTwice(s: seq<Seen>, earlier: int, now: int)
    requires earlier <= now
    ensures Unexpired(Unexpired(s, earlier), now) == Unexpired(s, now)
  {
    if s != [] {
      UnexpiredTwice(s[..|s| - 1], earlier, now);
      var rest := Unexpired(s[..|s| - 1], earlier);
      assert (rest + [s[|s| - 1]])[..|rest|] == rest;
    }
  }

  lemma {:induction false} UnexpiredAll(s: seq<Seen>, now: int)
    requires forall i :: 0 <= i < |s| ==> now - s[i].at <= DEDUPE_MS
    ensures Unexpired(s, now) == s
  {
    if s != [] {
      UnexpiredAll(s[..|s| - 1], now);
    }
  }

  lemma {:induction false} UnexpiredRest(s: seq<Seen>, now: int)
    requires s != [] && now - s[0].at > DEDUPE_MS
    ensures Unexpired(s[1..], now) == Unexpired(s, now)
  {
    if |s| > 1 {
      var init := s[..|s| - 1];
      UnexpiredRest(init, now);
      assert s[1..][..|s| - 2] == init[1..];
    }
  }

  lemma {:induction false} UnexpiredKey(s: seq<Seen>, now: int, key: string)
    ensures HasKey(Unexpired(s, now), key) <==>
      exists i :: 0 <= i < |s| && s[i].key == key && now - s[i].at <= DEDUPE_MS
  {
    if s != [] {
      var init, last := s[..|s| - 1], s[|s| - 1];
      UnexpiredKey(init, now, key);
      var rest, all := Unexpired(init, now), Unexpired(s, now);
      if HasKey(all, key) {
        var i :| 0 <= i < |all| && all[i].key == key;
        if i < |rest| {
          assert rest[i] == all[i];
        }
      }
      if HasKey(rest, key) {
        var i :| 0 <= i < |rest| && rest[i].key == key;
        assert all[i] == rest[i];
      }
      if last.key == key && now - last.at <= DEDUPE_MS {
        assert all[|rest|] == last;
      }
      forall i | 0 <= i < |s| && s[i].key == key && now - s[i].at <= DEDUPE_MS
        ensures HasKey(all, key)
      {
        if i < |init| {
          assert init[i] == s[i];
        }
      }
    }
  }

  lemma UnexpiredSnoc(s: seq<Seen>, x: Seen)
    ensures Unexpired(s + [x], x.at) == Unexpired(s, x.at) + [x]
  {
    assert (s + [x])[..|s|] == s;
  }

  /** Forgetting as one goes leaves the same as looking back at the last 1000 accepted messages of the hour. */
  lemma RememberedNewest(accepted: seq<Seen>, x: Seen)
    requires InTime(accepted)
    ensures Newest(Unexpired(Newest(accepted), x.at) + [x]) == Unexpired(Newest(accepted + [x]), x.at)
  {
    var s := Newest(accepted);
    hide Unexpired;
    if |accepted| < DEDUPE_MAX {
      UnexpiredSnoc(s, x);
    } else {
      assert Newest(accepted + [x]) == s[1..] + [x];
      UnexpiredSnoc(s[1..], x);
      if x.at - s[0].at > DEDUPE_MS {
        UnexpiredRest(s, x.at);
      } else {
        UnexpiredAll(s, x.at);
        UnexpiredAll(s[1..], x.at);
      }
    }
  }

  lemma SeenAlike(events: seq<Event>, accepted: seq<nat>)
    requires events != []
    requires forall p :: 0 <= p < |accepted| ==> accepted[p] < |events| - 1 && events[accepted[p]].Arrives?
    ensures SeenOf(events, accepted) == SeenOf(events[..|events| - 1], accepted)
  {
  }

  lemma {:induction false} ClockEarly(events: seq<Event>, now: int)
    requires forall k :: 0 <= k < |events| && events[k].Arrives? ==> events[k].r.now <= now
    ensures Clock(events) <= now || forall k :: 0 <= k < |events| ==> !events[k].Arrives?
  {
    if events != [] {
      ClockEarly(events[..|events| - 1], now);
    }
  }

  lemma OtherSeen(c: Config, b: Box, event: Event)
    ensures if event.Arrives? then Step(c, b, event).seen == Remembered(b, event.e, event.r.now).seen
      else Step(c, b, event).seen == b.seen
  {
    hide Remembered, Duplicates;
    if event.TimerFires? || event.AgentStarts? {
      FlushedSeen(c, if event.AgentStarts? then b.(wakeAt := 0, agentRunning := true) else b, event.r);
    }
  }

  lemma FlushedSeen(c: Config, b: Box, r: Reading)
    ensures Flushed(c, b, r).seen == b.seen
  {
    DrainedSeen(c, b, r, 0);
  }

  lemma {:induction false} DrainedSeen(c: Config, b: Box, r: Reading, k: nat)
    ensures Drained(c, b, r, k).seen == b.seen
    decreases |b.held|
  {
    if b.held != [] && r.idle(k) {
      DrainedSeen(c, Released(c, b, Trigger, true, r.now), r, k + 1);
    } else if b.held != [] && b.agentRunning && r.hasUI {
      DrainedSeen(c, Released(c, b, Steer, false, r.now), r, k + 1);
    }
  }

  predicate Recent(s: Seen, now: int, key: string) {
    s.key == key && now - s.at <= DEDUPE_MS
  }

  lemma NewestKey(accepted: seq<Seen>, now: int, key: string)
    ensures HasKey(Unexpired(Newest(accepted), now), key) <==>
      exists p :: 0 <= p < |accepted| && |accepted| - p <= DEDUPE_MAX && Recent(accepted[p], now, key)
  {
    var s := Newest(accepted);
    UnexpiredKey(s, now, key);
    var cut := |accepted| - |s|;
    assert forall i :: 0 <= i < |s| ==> s[i] == accepted[cut + i];
    forall p | 0 <= p < |accepted| && |accepted| - p <= DEDUPE_MAX && Recent(accepted[p], now, key)
      ensures HasKey(Unexpired(s, now), key)
    {
      assert s[p - cut] == accepted[p];
    }
    hide Unexpired, HasKey, Newest;
  }

  /** What is remembered are the last 1000 accepted messages, but for those older than an hour. */
  ghost predicate SeenMatches(c: Config, events: seq<Event>) {
    Run(c, events).seen == Unexpired(Newest(SeenOf(events, AcceptedAt(events))), Clock(events))
  }

  /** Forgetting at the last arrival and then at this one is forgetting at this one. */
  lemma ForgettingTwice(events: seq<Event>)
    requires Timely(events) && events != [] && events[|events| - 1].Arrives?
    ensures var n := |events| - 1;
      var s := Newest(SeenOf(events[..n], AcceptedAt(events[..n])));
      Unexpired(Unexpired(s, Clock(events[..n])), events[n].r.now) == Unexpired(s, events[n].r.now)
  {
    hide SeenOf, Unexpired;
    var n := |events| - 1;
    var s := Newest(SeenOf(events[..n], AcceptedAt(events[..n])));
    assert forall k :: 0 <= k < n ==> InTurn(events[k], events[n]);
    ClockEarly(events[..n], events[n].r.now);
    if Clock(events[..n]) <= events[n].r.now {
      UnexpiredTwice(s, Clock(events[..n]), events[n].r.now);
    } else {
      NoneAccepted(events[..n]);
      assert s == [];
      NothingExpires(Clock(events[..n]));
      NothingExpires(events[n].r.now);
    }
  }

  lemma {:induction false} NoneAccepted(events: seq<Event>)
    requires forall k :: 0 <= k < |events| ==> !events[k].Arrives?
    ensures AcceptedAt(events) == []
  {
    if events != [] {
      NoneAccepted(events[..|events| - 1]);
    }
  }

  lemma NothingExpires(now: int)
    ensures Unexpired([], now) == []
  {
  }

  lemma TimelyBefore(events: seq<Event>, n: nat)
    requires Timely(events) && n <= |events|
    ensures Timely(events[..n])
  {
  }

  predicate RefusesLast(c: Config, events: seq<Event>)
    requires events != [] && events[|events| - 1].Arrives?
  {
    var last := events[|events| - 1];
    Duplicates(Run(c, events[..|events| - 1]), last.e, last.r.now)
  }

  ghost predicate RepeatsLast(events: seq<Event>)
    requires events != [] && events[|events| - 1].Arrives?
  {
    Repeats(events, AcceptedAt(events[..|events| - 1]), |events| - 1)
  }

  /** A message is a duplicate to the runtime exactly when it repeats one of the last 1000 accepted, within the hour. */
  lemma RepeatsExactly(c: Config, events: seq<Event>)
    requires events != [] && events[|events| - 1].Arrives?
    requires Timely(events)
    requires SeenMatches(c, events[..|events| - 1])
    ensures RefusesLast(c, events) <==> RepeatsLast(events)
  {
    hide Run, Unexpired, AcceptedAt, Clock, Newest, HasKey, Timely;
    var n := |events| - 1;
    var before, accepted := events[..n], AcceptedAt(events[..n]);
    var now, key, s := events[n].r.now, Key(events[n].e), SeenOf(before, accepted);
    ForgettingTwice(events);
    NewestKey(s, now, key);
    hide SeenOf;
    forall p | 0 <= p < |s|
      ensures RepeatOf(events, accepted[p], n) <==> s[p].key == key && now - s[p].at <= DEDUPE_MS
    {
      assert events[accepted[p]] == before[accepted[p]];
    }
  }

  lemma SeenInTime(events: seq<Event>)
    requires Timely(events)
    ensures InTime(SeenOf(events, AcceptedAt(events)))
  {
    var a := AcceptedAt(events);
    assert forall p, q :: 0 <= p < q < |a| ==> InTurn(events[a[p]], events[a[q]]);
  }

  lemma SeenNext(c: Config, events: seq<Event>)
    requires Timely(events) && events != [] && events[|events| - 1].Arrives?
    requires SeenMatches(c, events[..|events| - 1])
    ensures SeenMatches(c, events)
  {
    hide Unexpired, Newest, HasKey, Step, Repeats, Timely, InTime;
    var n := |events| - 1;
    var before, accepted := events[..n], AcceptedAt(events[..n]);
    var s, x := SeenOf(before, accepted), Seen(Key(events[n].e), events[n].r.now);
    RepeatsExactly(c, events);
    OtherSeen(c, Run(c, before), events[n]);
    ForgettingTwice(events);
    SeenAlike(events, accepted);
    TimelyBefore(events, n);
    SeenInTime(before);
    RememberedNewest(s, x);
    assert SeenOf(events, accepted + [n]) == s + [x];
  }

  lemma SeenKept(c: Config, events: seq<Event>)
    requires events != [] && !events[|events| - 1].Arrives?
    requires SeenMatches(c, events[..|events| - 1])
    ensures SeenMatches(c, events)
  {
    var before := events[..|events| - 1];
    OtherSeen(c, Run(c, before), events[|events| - 1]);
    SeenAlike(events, AcceptedAt(before));
    hide Unexpired, Newest, Step;
  }

  /** What is remembered are the last 1000 accepted messages, but for those older than an hour. */
  lemma {:induction false} SeenIsAccepted(c: Config, events: seq<Event>)
    requires Timely(events)
    ensures SeenMatches(c, events)
  {
    hide Timely, Step, SeenOf;
    if events != [] {
      TimelyBefore(events, |events| - 1);
      SeenIsAccepted(c, events[..|events| - 1]);
      hide AcceptedAt, Unexpired, Newest, Clock, Run;
      if events[|events| - 1].Arrives? {
        SeenNext(c, events);
      } else {
        SeenKept(c, events);
      }
    } else {
      assert SeenOf(events, AcceptedAt(events)) == [];
    }
  }

  /** Never more than 1000 messages are remembered. */
  lemma {:induction false} SeenBounded(c: Config, events: seq<Event>)
    ensures |Run(c, events).seen| <= 1000
  {
    if events != [] {
      SeenBounded(c, events[..|events| - 1]);
      OtherSeen(c, Run(c, events[..|events| - 1]), events[|events| - 1]);
      hide Step, Unexpired, HasKey;
    }
  }

  /**
    Where the clock does not go back, a message counts as a duplicate exactly when it repeats one of the
    last 1000 accepted within the hour.
   */
  lemma DuplicateExactly(c: Config, events: seq<Event>, n: nat)
    requires Timely(events) && n < |events| && events[n].Arrives?
    ensures Duplicates(Run(c, events[..n]), events[n].e, events[n].r.now) <==> n !in AcceptedAt(events[..n + 1])
  {
    hide Repeats, Run, Duplicates, Timely, SeenMatches, AcceptedAt;
    var upto := events[..n + 1];
    assert upto[..n] == events[..n];
    TimelyBefore(events, n);
    TimelyBefore(events, n + 1);
    SeenIsAccepted(c, upto[..n]);
    RepeatsExactly(c, upto);
    AcceptedLast(upto);
  }

  lemma AcceptedLast(events: seq<Event>)
    requires events != [] && events[|events| - 1].Arrives?
    ensures var n := |events| - 1;
      n in AcceptedAt(events) <==> !Repeats(events, AcceptedAt(events[..n]), n)
  {
    hide Repeats;
    var n := |events| - 1;
    assert n !in AcceptedAt(events[..n]);
    assert AcceptedAt(events) == AcceptedAt(events[..n]) || AcceptedAt(events) == AcceptedAt(events[..n]) + [n];
  }

  /** The same message is accepted twice only more than an hour, or more than 1000 accepted messages, apart. */
  lemma {:induction false} AcceptedApart(events: seq<Event>, p: nat, q: nat)
    requires p < q < |AcceptedAt(events)|
    requires Key(events[AcceptedAt(events)[p]].e) == Key(events[AcceptedAt(events)[q]].e)
    ensures var a := AcceptedAt(events);
      events[a[q]].r.now - events[a[p]].r.now > 3_600_000 || q - p > 1000
  {
    var n := |events| - 1;
    var before := AcceptedAt(events[..n]);
    if q < |before| {
      AcceptedApart(events[..n], p, q);
    } else {
      assert !Repeats(events, before, n) && !(|before| - p <= DEDUPE_MAX && RepeatOf(events, before[p], n));
    }
  }

  // ---- duplicates by any clock ----

  /** The arrivals that were no duplicates, in order. */
  ghost function Taken(c: Config, events: seq<Event>): (a: seq<nat>)
    ensures forall p :: 0 <= p < |a| ==> a[p] < |events| && events[a[p]].Arrives?
  {
    if events == [] then []
    else
      var n := |events| - 1;
      var before := Taken(c, events[..n]);
      if events[n].Arrives? && !Duplicates(Run(c, events[..n]), events[n].e, events[n].r.now) then before + [n]
      else before
  }

  /** At no arrival since event `i` was it more than an hour old. */
  ghost predicate Lasts(events: seq<Event>, i: nat)
    requires i < |events| && events[i].Arrives?
  {
    forall m :: i < m < |events| && events[m].Arrives? ==> events[m].r.now - events[i].r.now <= 3_600_000
  }

  function SeenAs(event: Event): Seen
    requires event.Arrives?
  {
    Seen(Key(event.e), event.r.now)
  }

  /** What is remembered is one of some arrivals, and not more than an hour old at any arrival since. */
  ghost predicate Backed(events: seq<Event>, taken: seq<nat>, x: Seen)
    requires forall p :: 0 <= p < |taken| ==> taken[p] < |events| && events[taken[p]].Arrives?
  {
    exists p :: 0 <= p < |taken| && SeenAs(events[taken[p]]) == x && Lasts(events, taken[p])
  }

  lemma {:induction false} UnexpiredMember(s: seq<Seen>, now: int)
    ensures forall x :: x in Unexpired(s, now) <==> x in s && now - x.at <= DEDUPE_MS
  {
    if s != [] {
      UnexpiredMember(s[..|s| - 1], now);
      assert s == s[..|s| - 1] + [s[|s| - 1]];
    }
  }

  lemma BackedOn(events: seq<Event>, taken: seq<nat>, more: seq<nat>, x: Seen)
    requires events != [] && taken <= more
    requires forall p :: 0 <= p < |more| ==> more[p] < |events| && events[more[p]].Arrives?
    requires forall p :: 0 <= p < |taken| ==> taken[p] < |events| - 1
    requires Backed(events[..|events| - 1], taken, x)
    requires events[|events| - 1].Arrives? ==> events[|events| - 1].r.now - x.at <= DEDUPE_MS
    ensures Backed(events, more, x)
  {
    var n := |events| - 1;
    var p :| 0 <= p < |taken| && SeenAs(events[..n][taken[p]]) == x && Lasts(events[..n], taken[p]);
    assert more[p] == taken[p] && SeenAs(events[more[p]]) == x;
    forall m | more[p] < m < |events| && events[m].Arrives?
      ensures events[m].r.now - events[more[p]].r.now <= DEDUPE_MS
    {
      if m < n {
        assert events[..n][m] == events[m];
      }
    }
  }

  /** Over every run, each message remembered was taken, and has not been more than an hour old since. */
  lemma {:induction false} SeenBacked(c: Config, events: seq<Event>)
    ensures forall x :: x in Run(c, events).seen ==> Backed(events, Taken(c, events), x)
  {
    hide Step, Unexpired, Newest, Backed, HasKey;
    if events != [] {
      var n := |events| - 1;
      var before, b := events[..n], Run(c, events[..n]);
      SeenBacked(c, before);
      OtherSeen(c, b, events[n]);
      var taken := Taken(c, events);
      forall x | x in Run(c, events).seen
        ensures Backed(events, taken, x)
      {
        if events[n].Arrives? {
          RememberedMember(b, events[n].e, events[n].r.now, x);
          if x !in b.seen {
            assert taken[|taken| - 1] == n;
            BackedNow(events, taken);
          } else {
            BackedOn(events, Taken(c, before), taken, x);
          }
        } else {
          BackedOn(events, Taken(c, before), taken, x);
        }
      }
    }
  }

  lemma BackedNow(events: seq<Event>, taken: seq<nat>)
    requires taken != [] && taken[|taken| - 1] == |events| - 1
    requires forall p :: 0 <= p < |taken| ==> taken[p] < |events| && events[taken[p]].Arrives?
    ensures Backed(events, taken, SeenAs(events[|events| - 1]))
  {
    assert Lasts(events, taken[|taken| - 1]);
  }

  lemma RememberedMember(b: Box, e: Entry, now: int, x: Seen)
    requires x in Remembered(b, e, now).seen
    ensures (x in b.seen && now - x.at <= DEDUPE_MS) || (x == Seen(Key(e), now) && !Duplicates(b, e, now))
  {
    UnexpiredMember(b.seen, now);
    hide Unexpired;
  }

  /**
    Over every run and by any clock, a message is refused as a duplicate only if the same message was
    taken before and has not been more than an hour old at any arrival since: nothing else is lost.
   */
  lemma RefusedWasTaken(c: Config, events: seq<Event>, n: nat)
    requires n < |events| && events[n].Arrives? && Duplicates(Run(c, events[..n]), events[n].e, events[n].r.now)
    ensures exists i :: 0 <= i < n && i in Taken(c, events[..n]) && RepeatOf(events, i, n) && Lasts(events[..n + 1], i)
  {
    hide Run, Taken, Unexpired, Backed, Lasts, RepeatOf;
    var before, now, taken := events[..n], events[n].r.now, Taken(c, events[..n]);
    var x := SeenKey(Run(c, before), events[n].e, now);
    SeenBacked(c, before);
    assert events[..n + 1][..n] == before;
    BackedOn(events[..n + 1], taken, taken, x);
    BackedRepeats(events, taken, n, x);
  }

  lemma SeenKey(b: Box, e: Entry, now: int) returns (x: Seen)
    requires Duplicates(b, e, now)
    ensures x in b.seen && x.key == Key(e) && now - x.at <= DEDUPE_MS
  {
    var recent := Unexpired(b.seen, now);
    UnexpiredMember(b.seen, now);
    hide Unexpired;
    var k :| 0 <= k < |recent| && recent[k].key == Key(e);
    x := recent[k];
    assert x in recent;
  }

  lemma BackedRepeats(events: seq<Event>, taken: seq<nat>, n: nat, x: Seen)
    requires n < |events| && events[n].Arrives? && x.key == Key(events[n].e) && events[n].r.now - x.at <= DEDUPE_MS
    requires forall p :: 0 <= p < |taken| ==> taken[p] < n && events[taken[p]].Arrives?
    requires Backed(events[..n + 1], taken, x)
    ensures exists i :: 0 <= i < n && i in taken && RepeatOf(events, i, n) && Lasts(events[..n + 1], i)
  {
    var upto := events[..n + 1];
    hide Lasts;
    var p :| 0 <= p < |taken| && SeenAs(upto[taken[p]]) == x && Lasts(upto, taken[p]);
    assert taken[p] in taken && RepeatOf(events, taken[p], n);
  }

  lemma {:induction false} UnexpiredKeeps(s: seq<Seen>, now: int, k: nat) returns (j: nat)
    requires k < |s| && now - s[k].at <= DEDUPE_MS
    ensures var u := Unexpired(s, now);
      j < |u| && u[j] == s[k] && |u| - j <= |s| - k
  {
    var init := s[..|s| - 1];
    if k == |init| {
      j := |Unexpired(init, now)|;
    } else {
      j := UnexpiredKeeps(init, now, k);
    }
  }

  lemma NewestKeeps(s: seq<Seen>, j: nat) returns (k: nat)
    requires j < |s| && |s| - j <= DEDUPE_MAX
    ensures k < |Newest(s)| && Newest(s)[k] == s[j] && |Newest(s)| - k == |s| - j
  {
    k := if |s| <= DEDUPE_MAX then j else j - (|s| - DEDUPE_MAX);
  }

  lemma LastsBefore(events: seq<Event>, i: nat)
    requires i < |events| - 1 && events[i].Arrives? && Lasts(events, i)
    ensures Lasts(events[..|events| - 1], i)
    ensures var last := events[|events| - 1]; last.Arrives? ==> last.r.now - events[i].r.now <= DEDUPE_MS
  {
    var before := events[..|events| - 1];
    forall m | i < m < |before| && before[m].Arrives?
      ensures before[m].r.now - before[i].r.now <= DEDUPE_MS
    {
      assert before[m] == events[m];
    }
  }

  lemma TakenLast(c: Config, events: seq<Event>)
    requires events != []
    ensures var n := |events| - 1;
      Taken(c, events) == Taken(c, events[..n]) +
        if events[n].Arrives? && !Duplicates(Run(c, events[..n]), events[n].e, events[n].r.now) then [n] else []
  {
    hide Duplicates, Run;
  }

  /** A message taken among the last 1000, and not more than an hour old at any arrival since, is remembered. */
  lemma {:induction false} TakenRemembered(c: Config, events: seq<Event>, p: nat) returns (k: nat)
    requires var taken := Taken(c, events);
      p < |taken| && |taken| - p <= 1000 && Lasts(events, taken[p])
    ensures var seen, taken := Run(c, events).seen, Taken(c, events);
      k < |seen| && seen[k] == SeenAs(events[taken[p]]) && |seen| - k <= |taken| - p
  {
    hide Step, Unexpired, Newest, Lasts, Taken;
    var n := |events| - 1;
    var b, before := Run(c, events[..n]), Taken(c, events[..n]);
    TakenLast(c, events);
    OtherSeen(c, b, events[n]);
    hide Run;
    assert Run(c, events) == Step(c, b, events[n]) by {
      RunLast(c, events);
    }
    if p < |before| {
      LastsBefore(events, before[p]);
      k := TakenRemembered(c, events[..n], p);
      if events[n].Arrives? {
        var recent, x := Unexpired(b.seen, events[n].r.now), SeenAs(events[n]);
        k := UnexpiredKeeps(b.seen, events[n].r.now, k);
        if !HasKey(recent, x.key) {
          assert (recent + [x])[k] == recent[k];
          k := NewestKeeps(recent + [x], k);
        }
      }
    } else {
      var recent, x := Unexpired(b.seen, events[n].r.now), SeenAs(events[n]);
      k := NewestKeeps(recent + [x], |recent|);
    }
  }

  lemma RunLast(c: Config, events: seq<Event>)
    requires events != []
    ensures Run(c, events) == Step(c, Run(c, events[..|events| - 1]), events[|events| - 1])
  {
  }

  /**
    Over every run and by any clock, a message is refused as a duplicate if one of the last 1000 taken was
    the same and has not been more than an hour old at any arrival since.
   */
  lemma RepeatIsRefused(c: Config, events: seq<Event>, n: nat, p: nat)
    requires n < |events| && events[n].Arrives?
    requires var taken := Taken(c, events[..n]);
      && p < |taken| && |taken| - p <= 1000
      && Key(events[taken[p]].e) == Key(events[n].e) && Lasts(events[..n + 1], taken[p])
    ensures Duplicates(Run(c, events[..n]), events[n].e, events[n].r.now)
  {
    hide Run, Unexpired, Taken, Lasts;
    var upto, taken := events[..n + 1], Taken(c, events[..n]);
    assert upto[..n] == events[..n];
    LastsBefore(upto, taken[p]);
    var k := TakenRemembered(c, events[..n], p);
    var j := UnexpiredKeeps(Run(c, events[..n]).seen, events[n].r.now, k);
  }

  // ---- order ----

  /** What was injected, followed by what is held. */
  function Queue(b: Box): seq<Entry> {
    seq(|b.sent|, i requires 0 <= i < |b.sent| => b.sent[i].entry) + b.held
  }

  function Kept(arrivals: seq<Entry>, dropped: set<nat>): seq<Entry> {
    var p := Places(|arrivals|, dropped);
    seq(|p|, i requires 0 <= i < |p| => arrivals[p[i]])
  }

  /** What was injected, then what is held, are the arrivals in order but for those dropped. */
  ghost predicate InOrder(b: Box, arrivals: seq<Entry>, dropped: set<nat>) {
    Queue(b) == Kept(arrivals, dropped) && forall j :: j in dropped ==> j < |arrivals|
  }

  lemma InjectedQueue(c: Config, b: Box, e: Entry, delivery: Delivery, idle: bool, now: int)
    requires b.held == []
    ensures Queue(Injected(c, b, e, delivery, idle, now)) == Queue(b) + [e]
  {
  }

  lemma ReleasedQueue(c: Config, b: Box, delivery: Delivery, idle: bool, now: int)
    requires b.held != []
    ensures Queue(Released(c, b, delivery, idle, now)) == Queue(b)
  {
  }

  lemma RoutedQueue(c: Config, b: Box, e: Entry, r: Reading)
    ensures Queue(Routed(c, b, e, r)) == Queue(b) + [e]
  {
    if b.held == [] {
      InjectedQueue(c, b, e, if r.idle(0) then Trigger else Steer, r.idle(0), r.now);
    }
    assert Queue(b.(held := b.held + [e], heldTimer := true)) == Queue(b) + [e];
    hide Injected;
  }

  lemma {:induction false} DrainedQueue(c: Config, b: Box, r: Reading, k: nat)
    ensures Queue(Drained(c, b, r, k)) == Queue(b)
    decreases |b.held|
  {
    hide Queue;
    if b.held != [] && (r.idle(k) || (b.agentRunning && r.hasUI)) {
      var delivery := if r.idle(k) then Trigger else Steer;
      ReleasedQueue(c, b, delivery, r.idle(k), r.now);
      DrainedQueue(c, Released(c, b, delivery, r.idle(k), r.now), r, k + 1);
    }
  }

  lemma FlushedQueue(c: Config, b: Box, r: Reading)
    ensures Queue(Flushed(c, b, r)) == Queue(b)
  {
    DrainedQueue(c, b, r, 0);
    if b.held != [] {
      ReleasedQueue(c, b, Trigger, true, r.now);
    }
    hide Drained, Released, WakePending;
  }

  /** Every event but a control leaves the queue as it is, or adds the message that arrives at its end. */
  lemma StepQueue(c: Config, b: Box, event: Event)
    requires !event.Controls?
    ensures Queue(Step(c, b, event)) ==
      if event.Arrives? && !Duplicates(b, event.e, event.r.now) && !event.answersAsk then Queue(b) + [event.e]
      else Queue(b)
  {
    hide Duplicates, Routed, Flushed, Released;
    match event {
      case Arrives(e, answersAsk, r) =>
        var next := Remembered(b, e, r.now);
        assert Queue(next) == Queue(b);
        RoutedQueue(c, next, e, r);
      case TimerFires(r) => FlushedQueue(c, b, r);
      case AgentStarts(r) =>
        var next := b.(wakeAt := 0, agentRunning := true);
        assert Queue(next) == Queue(b);
        FlushedQueue(c, next, r);
      case AgentEnds =>
      case TurnEnds(assistantFinished, r) =>
        if b.held != [] {
          ReleasedQueue(c, b, Steer, false, r.now);
        }
    }
  }

  lemma KeptMore(arrivals: seq<Entry>, dropped: set<nat>, e: Entry)
    requires |arrivals| !in dropped
    ensures Kept(arrivals + [e], dropped) == Kept(arrivals, dropped) + [e]
  {
  }

  /** Dropping the q-th of what is left, which is a message of its own place. */
  lemma KeptDrop(arrivals: seq<Entry>, dropped: set<nat>, q: nat) returns (j: nat)
    requires q < |Kept(arrivals, dropped)|
    ensures var k := Kept(arrivals, dropped);
      && j < |arrivals| && j !in dropped && arrivals[j] == k[q]
      && Kept(arrivals, dropped + {j}) == k[..q] + k[q + 1..]
  {
    PlacesDrop(|arrivals|, dropped, q);
    hide Places;
    j := Places(|arrivals|, dropped)[q];
  }

  lemma ControlledQueue(b: Box, i: nat)
    requires i < |b.held|
    ensures Queue(b.(held := b.held[..i] + b.held[i + 1..])) == Queue(b)[..|b.sent| + i] + Queue(b)[|b.sent| + i + 1..]
    ensures Queue(b)[|b.sent| + i] == b.held[i]
  {
  }

  // ---- over every run ----

  /** The messages that reach the inbox: those that are no duplicates and that no `ask` waits for. */
  ghost function Arrived(c: Config, events: seq<Event>): seq<Entry> {
    if events == [] then []
    else
      var n := |events| - 1;
      var rest := Arrived(c, events[..n]);
      if events[n].Arrives? && !Duplicates(Run(c, events[..n]), events[n].e, events[n].r.now) && !events[n].answersAsk
      then rest + [events[n].e] else rest
  }

  /** Event `k` is a control that finds the message it names held. */
  ghost predicate Finds(c: Config, events: seq<Event>, k: nat) {
    k < |events| && events[k].Controls? && PositionOf(Run(c, events[..k]).held, events[k].messageId).Some?
  }

  /** Event `k` drops the `j`-th message that reached the inbox, which it finds held. */
  ghost predicate DropsAt(c: Config, events: seq<Event>, j: nat, k: nat) {
    && Finds(c, events, k) && j < |Arrived(c, events[..k])|
    && var held := Run(c, events[..k]).held;
      Arrived(c, events[..k])[j] == held[PositionOf(held, events[k].messageId).value]
  }

  /** Each message dropped was dropped by a control of its own, and each control that found one dropped it. */
  ghost predicate DropsExactly(c: Config, events: seq<Event>, drops: map<nat, nat>) {
    && (forall j :: j in drops ==> DropsAt(c, events, j, drops[j]))
    && (forall i, j :: i in drops && j in drops && drops[i] == drops[j] ==> i == j)
    && (forall k :: Finds(c, events, k) ==> k in drops.Values)
  }

  lemma FindsBefore(c: Config, events: seq<Event>, n: nat, k: nat)
    requires k < n <= |events|
    ensures Finds(c, events[..n], k) <==> Finds(c, events, k)
    ensures forall j :: DropsAt(c, events[..n], j, k) <==> DropsAt(c, events, j, k)
  {
    assert events[..n][..k] == events[..k];
  }

  lemma FindsListed(c: Config, events: seq<Event>)
    ensures forall k: nat :: Finds(c, events, k) ==> k < |events|
    ensures forall j, k :: DropsAt(c, events, j, k) ==> Finds(c, events, k)
  {
  }

  /** Drops up to the last event are drops of the whole run; the last event may add one. */
  lemma DropsNext(c: Config, events: seq<Event>, drops: map<nat, nat>, next: map<nat, nat>, j: nat)
    requires events != [] && DropsExactly(c, events[..|events| - 1], drops)
    requires var n := |events| - 1;
      if Finds(c, events, n) then j !in drops && DropsAt(c, events, j, n) && next == drops[j := n] else next == drops
    ensures DropsExactly(c, events, next)
  {
    hide DropsAt, Finds;
    var n := |events| - 1;
    FindsListed(c, events[..n]);
    FindsListed(c, events);
    forall i | i in drops
      ensures DropsAt(c, events, i, drops[i]) && drops[i] < n
    {
      FindsBefore(c, events, n, drops[i]);
    }
    forall k: nat | Finds(c, events, k)
      ensures k in next.Values
    {
      if k < n {
        FindsBefore(c, events, n, k);
        var i :| i in drops && drops[i] == k;
        assert i in next && next[i] == k;
      } else {
        assert next[j] == k;
      }
    }
  }

  lemma OtherInOrder(c: Config, events: seq<Event>, dropped: set<nat>)
    requires events != [] && !events[|events| - 1].Controls?
    requires InOrder(Run(c, events[..|events| - 1]), Arrived(c, events[..|events| - 1]), dropped)
    ensures InOrder(Run(c, events), Arrived(c, events), dropped)
  {
    var n := |events| - 1;
    var b, arrivals := Run(c, events[..n]), Arrived(c, events[..n]);
    StepQueue(c, b, events[n]);
    if events[n].Arrives? {
      KeptMore(arrivals, dropped, events[n].e);
    }
    hide Step, Queue, Kept, Duplicates;
  }

  lemma ControlInOrder(c: Config, events: seq<Event>, drops: map<nat, nat>) returns (next: map<nat, nat>)
    requires events != [] && events[|events| - 1].Controls?
    requires InOrder(Run(c, events[..|events| - 1]), Arrived(c, events[..|events| - 1]), drops.Keys)
    requires DropsExactly(c, events[..|events| - 1], drops)
    ensures InOrder(Run(c, events), Arrived(c, events), next.Keys) && DropsExactly(c, events, next)
  {
    hide DropsExactly, Arrived, DropsAt, Queue, Kept;
    var n := |events| - 1;
    var b, arrivals := Run(c, events[..n]), Arrived(c, events[..n]);
    ArrivedOther(c, events);
    next := drops;
    if Finds(c, events, n) {
      var i := PositionOf(b.held, events[n].messageId).value;
      ControlledQueue(b, i);
      QueueLength(b);
      var j := KeptDrop(arrivals, drops.Keys, |b.sent| + i);
      next := drops[j := n];
      assert next.Keys == drops.Keys + {j};
      assert Run(c, events) == b.(held := b.held[..i] + b.held[i + 1..]);
      Dropping(c, events, j);
      DropsNext(c, events, drops, next, j);
    } else {
      assert Run(c, events) == b;
      DropsNext(c, events, drops, next, 0);
    }
  }

  lemma QueueLength(b: Box)
    ensures |Queue(b)| == |b.sent| + |b.held|
  {
  }

  lemma Dropping(c: Config, events: seq<Event>, j: nat)
    requires events != [] && Finds(c, events, |events| - 1) && j < |Arrived(c, events[..|events| - 1])|
    requires var b := Run(c, events[..|events| - 1]);
      Arrived(c, events[..|events| - 1])[j] == b.held[PositionOf(b.held, events[|events| - 1].messageId).value]
    ensures DropsAt(c, events, j, |events| - 1)
  {
  }

  lemma ArrivedOther(c: Config, events: seq<Event>)
    requires events != [] && !events[|events| - 1].Arrives?
    ensures Arrived(c, events) == Arrived(c, events[..|events| - 1])
  {
  }

  /**
    Over every run, what was injected followed by what is held are the messages that reached the
    inbox, in order, but for those that a control found held and dropped. Nothing else is lost, and
    nothing is reordered or injected twice.
   */
  lemma {:induction false} RunInOrder(c: Config, events: seq<Event>) returns (drops: map<nat, nat>)
    ensures InOrder(Run(c, events), Arrived(c, events), drops.Keys)
    ensures DropsExactly(c, events, drops)
  {
    if events == [] {
      drops := map[];
    } else {
      var n := |events| - 1;
      drops := RunInOrder(c, events[..n]);
      if events[n].Controls? {
        drops := ControlInOrder(c, events, drops);
      } else {
        OtherInOrder(c, events, drops.Keys);
        DropsNext(c, events, drops, drops, 0);
      }
    }
  }

  /** Where the clock does not go back, those are the accepted arrivals that no `ask` waits for. */
  lemma {:induction false} ArrivedIsReaching(c: Config, events: seq<Event>)
    requires Timely(events)
    ensures Arrived(c, events) == Reaching(events)
  {
    if events != [] {
      var n := |events| - 1;
      TimelyBefore(events, n);
      ArrivedIsReaching(c, events[..n]);
      assert events[..n + 1] == events;
      if events[n].Arrives? {
        DuplicateExactly(c, events, n);
      }
      hide Duplicates, AcceptedAt, Timely, Run;
    }
  }

  /** Whoever is held is looked after: the timer runs, so that a session which can take messages gets them. */
  lemma {:induction false} HeldIsTimed(c: Config, events: seq<Event>)
    ensures Run(c, events).held != [] ==> Run(c, events).heldTimer
  {
    if events != [] {
      HeldIsTimed(c, events[..|events| - 1]);
      StepTimed(c, Run(c, events[..|events| - 1]), events[|events| - 1]);
    }
  }

  lemma StepTimed(c: Config, b: Box, event: Event)
    requires b.held != [] ==> b.heldTimer
    ensures Step(c, b, event).held != [] ==> Step(c, b, event).heldTimer
  {
    hide Duplicates, WakePending;
    match event {
      case TimerFires(r) => DrainedTimed(c, b, r, 0);
      case AgentStarts(r) => DrainedTimed(c, b.(wakeAt := 0, agentRunning := true), r, 0);
      case _ =>
    }
  }

  lemma {:induction false} DrainedTimed(c: Config, b: Box, r: Reading, k: nat)
    ensures Drained(c, b, r, k).heldTimer == b.heldTimer && Drained(c, b, r, k).agentRunning == b.agentRunning
    ensures |Drained(c, b, r, k).held| <= |b.held|
    ensures var left := Drained(c, b, r, k).held;
      left == [] || (!r.idle(k + |b.held| - |left|) && !(b.agentRunning && r.hasUI))
    decreases |b.held|
  {
    hide WakePending;
    if b.held != [] && r.idle(k) {
      DrainedTimed(c, Released(c, b, Trigger, true, r.now), r, k + 1);
    } else if b.held != [] && b.agentRunning && r.hasUI {
      DrainedTimed(c, Released(c, b, Steer, false, r.now), r, k + 1);
    }
  }

  /**
    What a flush leaves held waits for a reason: a human comes first and one message was let through
    or none may be, or the session is busy and nobody is there to steer for.
   */
  lemma FlushedLeaves(c: Config, b: Box, r: Reading)
    ensures var n := Flushed(c, b, r);
      |n.held| <= |b.held| && (n.held != [] ==>
        if c.humanFirst && r.hasUI then |n.held| == |b.held| - 1 || !r.idle(0) || WakePending(b.wakeAt, r.now)
        else !r.idle(|b.held| - |n.held|) && !(b.agentRunning && r.hasUI))
  {
    hide WakePending;
    DrainedTimed(c, b, r, 0);
    hide Drained;
  }

  // ---- turns ----

  /** When messages started a turn, since the agent last began. */
  ghost function Starts(c: Config, events: seq<Event>): seq<int> {
    if events == [] then []
    else
      var n := |events| - 1;
      var before, b := if events[n].AgentStarts? then [] else Starts(c, events[..n]), Run(c, events[..n]);
      before + StartTimes(SentSince(b, Run(c, events)))
  }

  function SentSince(b: Box, n: Box): seq<Sent> {
    if |b.sent| <= |n.sent| then n.sent[|b.sent|..] else []
  }

  function StartTimes(sent: seq<Sent>): seq<int> {
    if sent == [] then []
    else
      var last := sent[|sent| - 1];
      StartTimes(sent[..|sent| - 1]) + if last.how == StartTurn then [last.at] else []
  }

  /** Each at least a reservation after the one before, the last of them remembered. */
  ghost predicate Spaced(starts: seq<int>, wakeAt: int) {
    && (if starts == [] then wakeAt == 0 else wakeAt == starts[|starts| - 1])
    && (forall i :: 0 <= i < |starts| ==> starts[i] > 0)
    && (forall i :: 0 < i < |starts| ==> starts[i] - starts[i - 1] >= WAKE_RESERVATION_MS)
  }

  /** What is sent from one box to a later one starts turns that keep to the spacing. */
  ghost predicate SpacesOn(b: Box, n: Box, starts: seq<int>) {
    b.sent <= n.sent && Spaced(starts + StartTimes(n.sent[|b.sent|..]), n.wakeAt)
  }

  lemma {:induction false} StartTimesAppend(a: seq<Sent>, b: seq<Sent>)
    ensures StartTimes(a + b) == StartTimes(a) + StartTimes(b)
  {
    if b == [] {
      assert a + b == a;
    } else {
      assert (a + b)[..|a + b| - 1] == a + b[..|b| - 1];
      StartTimesAppend(a, b[..|b| - 1]);
    }
  }

  lemma SlicesJoin<T>(a: seq<T>, b: seq<T>, n: seq<T>)
    requires a <= b && b <= n
    ensures a <= n && n[|a|..] == b[|a|..] + n[|b|..]
  {
  }

  lemma StartsJoin(starts: seq<int>, a: seq<Sent>, b: seq<Sent>)
    ensures starts + StartTimes(a + b) == starts + StartTimes(a) + StartTimes(b)
  {
    StartTimesAppend(a, b);
  }

  lemma SpacesTwice(a: Box, b: Box, n: Box, starts: seq<int>)
    requires SpacesOn(a, b, starts) && SpacesOn(b, n, starts + StartTimes(b.sent[|a.sent|..]))
    ensures SpacesOn(a, n, starts)
  {
    hide Spaced, StartTimes;
    SlicesJoin(a.sent, b.sent, n.sent);
    StartsJoin(starts, b.sent[|a.sent|..], n.sent[|b.sent|..]);
  }

  lemma SpacesSame(b: Box, n: Box, starts: seq<int>)
    requires n.sent == b.sent && n.wakeAt == b.wakeAt && Spaced(starts, b.wakeAt)
    ensures SpacesOn(b, n, starts)
  {
    assert n.sent[|b.sent|..] == [];
    assert starts + [] == starts;
  }

  lemma InjectedSpaces(c: Config, b: Box, e: Entry, delivery: Delivery, idle: bool, now: int, starts: seq<int>)
    requires now > 0 && Spaced(starts, b.wakeAt)
    ensures SpacesOn(b, Injected(c, b, e, delivery, idle, now), starts)
  {
    var n := Injected(c, b, e, delivery, idle, now);
    var how := HowSent(c, b, e, delivery, idle, now);
    var more := [Sent(e, how, now)];
    assert n.sent[|b.sent|..] == more;
    assert more[..0] == [];
    assert StartTimes(more) == if how == StartTurn then [now] else [];
    assert starts + [] == starts;
    hide StartTimes;
  }

  lemma ReleasedSpaces(c: Config, b: Box, delivery: Delivery, idle: bool, now: int, starts: seq<int>)
    requires now > 0 && b.held != [] && Spaced(starts, b.wakeAt)
    ensures SpacesOn(b, Released(c, b, delivery, idle, now), starts)
  {
    InjectedSpaces(c, b.(held := b.held[1..]), b.held[0], delivery, idle, now, starts);
    hide Injected, Spaced;
  }

  lemma {:induction false} DrainedSpaces(c: Config, b: Box, r: Reading, k: nat, starts: seq<int>)
    requires r.now > 0 && Spaced(starts, b.wakeAt)
    ensures SpacesOn(b, Drained(c, b, r, k), starts)
    decreases |b.held|
  {
    if b.held != [] && (r.idle(k) || (b.agentRunning && r.hasUI)) {
      var delivery := if r.idle(k) then Trigger else Steer;
      var m := Released(c, b, delivery, r.idle(k), r.now);
      ReleasedSpaces(c, b, delivery, r.idle(k), r.now, starts);
      var since := starts + StartTimes(m.sent[|b.sent|..]);
      DrainedSpaces(c, m, r, k + 1, since);
      hide Released, Spaced, StartTimes;
      SpacesTwice(b, m, Drained(c, m, r, k + 1), starts);
    } else {
      SpacesSame(b, b, starts);
    }
  }

  lemma FlushedSpaces(c: Config, b: Box, r: Reading, starts: seq<int>)
    requires r.now > 0 && Spaced(starts, b.wakeAt)
    ensures SpacesOn(b, Flushed(c, b, r), starts)
  {
    hide Drained, Released, WakePending, Spaced, StartTimes;
    if !(c.humanFirst && r.hasUI) {
      DrainedSpaces(c, b, r, 0, starts);
    } else if b.held != [] {
      ReleasedSpaces(c, b, Trigger, true, r.now, starts);
    }
    SpacesSame(b, b, starts);
  }

  /** A step starts turns that keep to the spacing; when the agent begins, the count starts anew. */
  lemma StepSpaces(c: Config, b: Box, event: Event, starts: seq<int>)
    requires !event.AgentEnds? && !event.Controls? ==> event.r.now > 0
    requires Spaced(starts, b.wakeAt)
    ensures SpacesOn(b, Step(c, b, event), if event.AgentStarts? then [] else starts)
  {
    hide Drained, Released, Flushed, Injected, WakePending, StartTimes, Duplicates;
    match event {
      case Arrives(e, answersAsk, r) =>
        var m := Remembered(b, e, r.now);
        InjectedSpaces(c, m, e, if r.idle(0) then Trigger else Steer, r.idle(0), r.now, starts);
        SpacesSame(b, m, starts);
        SpacesSame(b, m.(held := m.held + [e], heldTimer := true), starts);
        hide Spaced;
      case TimerFires(r) =>
        FlushedSpaces(c, b, r, starts);
        SpacesSame(b, b, starts);
      case AgentStarts(r) =>
        FlushedSpaces(c, b.(wakeAt := 0, agentRunning := true), r, []);
      case AgentEnds => SpacesSame(b, b.(agentRunning := false), starts);
      case TurnEnds(assistantFinished, r) =>
        SpacesSame(b, b, starts);
        if b.held != [] {
          ReleasedSpaces(c, b, Steer, false, r.now, starts);
        }
      case Controls(messageId) => SpacesSame(b, Controlled(b, messageId), starts);
    }
  }

  /** The clock is past the epoch. */
  ghost predicate PastEpoch(events: seq<Event>) {
    forall k :: 0 <= k < |events| && !events[k].AgentEnds? && !events[k].Controls? ==> events[k].r.now > 0
  }

  /** Over every run, turns are started at least ten seconds apart until the agent begins. */
  lemma {:induction false} TurnsAreSpaced(c: Config, events: seq<Event>)
    requires PastEpoch(events)
    ensures Spaced(Starts(c, events), Run(c, events).wakeAt)
  {
    if events != [] {
      var n := |events| - 1;
      TurnsAreSpaced(c, events[..n]);
      StepSpaces(c, Run(c, events[..n]), events[n], Starts(c, events[..n]));
      hide Step, StartTimes, Spaced;
    }
  }
}
