/** Every run of the permission ledger and its session: which ids are issued, and when one is issued again. */
module LedgerRuns {
  import opened Prelude
  import opened LedgerData
  import opened Ledger

  datatype Event =
    | Blocks(call: Blocked, now: int)
    | Rejects(id: string)
    | ClearsRejected
    | Approves(id: string, cwd: Option<string>, now: int)
    | Dismisses(id: string)
    | Remembers(
        toolName: string, input: string, folder: string, directories: seq<Directory>, owner: Option<Owner>, now: int)
    | ClearsSimilar
    | Refreshes(workspace: string, records: seq<(Directory, int)>)
    | Revokes(key: string)
    | Saves
    /** The session goes to a branch whose last record is that of an earlier save, or which has none. */
    | Restores(save: Option<nat>)

  // ---- numbers ----

  /** The number of the next id, that of each save, and the numbers issued. */
  datatype Count = Count(next: nat, saved: seq<nat>, issued: seq<nat>)

  function Counted(c: Count, event: Event): Count {
    match event
    case Blocks(_, _) => c.(next := c.next + 1, issued := c.issued + [c.next])
    case Saves => c.(saved := c.saved + [c.next])
    case Restores(save) => c.(next := if save.Some? && save.value < |c.saved| then c.saved[save.value] else 1)
    case _ => c
  }

  function CountOf(events: seq<Event>): Count {
    if events == [] then Count(1, [], []) else Counted(CountOf(events[..|events| - 1]), events[|events| - 1])
  }

  /** The first number that was never issued. */
  function Unissued(issued: seq<nat>): nat {
    if issued == [] then 1
    else
      var before, last := Unissued(issued[..|issued| - 1]), issued[|issued| - 1];
      if last < before then before else last + 1
  }

  /** No number is skipped, and no save is ahead of what was issued. */
  ghost predicate Gapless(c: Count) {
    && 1 <= c.next <= Unissued(c.issued)
    && (forall x :: x in c.issued <==> 1 <= x < Unissued(c.issued))
    && (forall i :: 0 <= i < |c.saved| ==> 1 <= c.saved[i] <= Unissued(c.issued))
  }

  lemma IssuedNext(issued: seq<nat>, x: nat)
    ensures Unissued(issued + [x]) == if x < Unissued(issued) then Unissued(issued) else x + 1
  {
    assert (issued + [x])[..|issued|] == issued;
  }

  lemma BlockedGapless(c: Count)
    requires Gapless(c)
    ensures Gapless(c.(next := c.next + 1, issued := c.issued + [c.next]))
  {
    IssuedNext(c.issued, c.next);
    hide Unissued;
  }

  lemma {:induction false} CountGapless(events: seq<Event>)
    ensures Gapless(CountOf(events))
  {
    hide Unissued;
    if events != [] {
      CountGapless(events[..|events| - 1]);
      if events[|events| - 1].Blocks? {
        BlockedGapless(CountOf(events[..|events| - 1]));
      }
    } else {
      assert Unissued([]) == 1 by {
        UnissuedNone();
      }
    }
  }

  lemma UnissuedNone()
    ensures Unissued([]) == 1
  {
  }

  // ---- when an id is issued again ----

  /** The record restored at event `k` is behind: some id above its own was already issued. */
  ghost predicate FallsBack(events: seq<Event>, k: nat) {
    k < |events| && events[k].Restores? && CountOf(events[..k + 1]).next < Unissued(CountOf(events[..k]).issued)
  }

  /** Nothing is restored after event `k`. */
  ghost predicate LastRestore(events: seq<Event>, k: nat) {
    k < |events| && events[k].Restores? && forall m :: k < m < |events| ==> !events[m].Restores?
  }

  /** A call is blocked under a record that is behind. */
  ghost predicate BlocksBehind(events: seq<Event>, k: nat, m: nat) {
    k < m < |events| && FallsBack(events, k) && events[m].Blocks? && LastRestore(events[..m], k)
  }

  ghost predicate NeverBehind(events: seq<Event>) {
    forall k, m :: !BlocksBehind(events, k, m)
  }

  lemma FallsBackBefore(events: seq<Event>, n: nat, k: nat)
    requires k < n <= |events|
    ensures FallsBack(events[..n], k) <==> FallsBack(events, k)
  {
    assert events[..n][..k] == events[..k] && events[..n][..k + 1] == events[..k + 1];
  }

  lemma LastRestoreListed(events: seq<Event>)
    ensures forall k: nat :: LastRestore(events, k) ==> k < |events|
    ensures forall k: nat :: FallsBack(events, k) ==> k < |events|
  {
  }

  lemma LastRestoreNext(events: seq<Event>, k: nat)
    requires events != []
    ensures var n := |events| - 1;
      LastRestore(events, k) <==> if events[n].Restores? then k == n else LastRestore(events[..n], k)
  {
    var n := |events| - 1;
    assert forall m :: 0 <= m < n ==> events[..n][m] == events[m];
  }

  /** The last record restored was behind. */
  ghost predicate Lagging(events: seq<Event>) {
    exists k :: FallsBack(events, k) && LastRestore(events, k)
  }

  lemma LaggingNext(events: seq<Event>)
    requires events != []
    ensures var n := |events| - 1;
      Lagging(events) <==> if events[n].Restores? then FallsBack(events, n) else Lagging(events[..n])
  {
    var n := |events| - 1;
    hide LastRestore, FallsBack;
    LastRestoreListed(events[..n]);
    forall k: nat
      ensures LastRestore(events, k) <==> if events[n].Restores? then k == n else LastRestore(events[..n], k)
      ensures k < n ==> (FallsBack(events[..n], k) <==> FallsBack(events, k))
    {
      LastRestoreNext(events, k);
      if k < n {
        FallsBackBefore(events, n, k);
      }
    }
  }

  lemma BlocksBehindAt(events: seq<Event>, k: nat, m: nat)
    requires m < |events|
    ensures BlocksBehind(events, k, m) <==>
      events[m].Blocks? && FallsBack(events[..m], k) && LastRestore(events[..m], k)
  {
    LastRestoreListed(events[..m]);
    if k < m {
      FallsBackBefore(events, m, k);
    }
    hide FallsBack, LastRestore;
  }

  /** Blocking behind is blocking while the last record restored was behind. */
  lemma NeverBehindNext(events: seq<Event>)
    requires events != []
    ensures var n := |events| - 1;
      NeverBehind(events) <==> NeverBehind(events[..n]) && !(events[n].Blocks? && Lagging(events[..n]))
  {
    var n := |events| - 1;
    forall k: nat, m: nat | m < n
      ensures BlocksBehind(events[..n], k, m) <==> BlocksBehind(events, k, m)
    {
      BlocksBehindAt(events[..n], k, m);
      BlocksBehindAt(events, k, m);
      assert events[..n][..m] == events[..m];
    }
    forall k: nat
      ensures BlocksBehind(events, k, n) <==>
        events[n].Blocks? && FallsBack(events[..n], k) && LastRestore(events[..n], k)
    {
      BlocksBehindAt(events, k, n);
    }
    BlocksBehindListed(events[..n]);
    BlocksBehindListed(events);
    hide BlocksBehind, FallsBack, LastRestore;
  }

  lemma BlocksBehindListed(events: seq<Event>)
    ensures forall k: nat, m: nat :: BlocksBehind(events, k, m) ==> m < |events|
  {
  }

  /**
    While nothing was blocked behind, the next number was issued before exactly if the last record
    restored was behind.
   */
  lemma {:induction false} BehindExactly(events: seq<Event>)
    requires NeverBehind(events)
    ensures CountOf(events).next < Unissued(CountOf(events).issued) <==> Lagging(events)
  {
    hide NeverBehind, Lagging, Unissued, Gapless, FallsBack;
    if events != [] {
      var n := |events| - 1;
      var c := CountOf(events[..n]);
      NeverBehindNext(events);
      LaggingNext(events);
      BehindExactly(events[..n]);
      CountBounded(events[..n]);
      IssuedNext(c.issued, c.next);
      assert events[..n + 1] == events;
      FallsBackAt(events, n);
    } else {
      UnissuedNone();
      NeverLagging();
    }
  }

  lemma NeverLagging()
    ensures !Lagging([]) && NeverBehind([])
  {
  }

  lemma FallsBackAt(events: seq<Event>, k: nat)
    requires k < |events|
    ensures FallsBack(events, k) <==>
      events[k].Restores? && CountOf(events[..k + 1]).next < Unissued(CountOf(events[..k]).issued)
  {
  }

  lemma CountBounded(events: seq<Event>)
    ensures CountOf(events).next <= Unissued(CountOf(events).issued)
    ensures forall x :: x in CountOf(events).issued <==> 1 <= x < Unissued(CountOf(events).issued)
    ensures CountOf(events).next >= 1
  {
    CountGapless(events);
  }

  lemma DistinctNext(s: seq<nat>, x: nat)
    ensures Distinct(s + [x]) <==> Distinct(s) && x !in s
  {
    var t := s + [x];
    assert forall i :: 0 <= i < |s| ==> t[i] == s[i];
    if Distinct(t) {
      assert forall i :: 0 <= i < |s| ==> t[i] != t[|s|];
    }
  }

  /**
    Over every run, saved and restored in any order, no number is issued twice exactly when no call is
    blocked while the record last restored is behind the numbers issued by then.
   */
  lemma {:induction false} IssuedOnceExactly(events: seq<Event>)
    ensures Distinct(CountOf(events).issued) <==> NeverBehind(events)
  {
    hide NeverBehind, Lagging, Unissued, Distinct;
    if events != [] {
      var n := |events| - 1;
      var c := CountOf(events[..n]);
      IssuedOnceExactly(events[..n]);
      NeverBehindNext(events);
      CountBounded(events[..n]);
      DistinctNext(c.issued, c.next);
      if NeverBehind(events[..n]) {
        BehindExactly(events[..n]);
      }
    } else {
      NeverLagging();
      assert Distinct<nat>([]) by {
        NoneTwice();
      }
    }
  }

  lemma NoneTwice()
    ensures Distinct<nat>([])
  {
  }

  // ---- after one restore ----

  ghost predicate WithoutRestores(events: seq<Event>) {
    forall k :: 0 <= k < |events| ==> !events[k].Restores?
  }

  function BlocksIn(events: seq<Event>): nat {
    if events == [] then 0 else BlocksIn(events[..|events| - 1]) + if events[|events| - 1].Blocks? then 1 else 0
  }

  function Numbers(from: nat, count: nat): seq<nat> {
    seq(count, i requires 0 <= i < count => from + i)
  }

  /** Without another restore the numbers go on from the next one. */
  lemma {:induction false} IssuedFrom(before: seq<Event>, after: seq<Event>)
    requires WithoutRestores(after)
    ensures var c := CountOf(before);
      && CountOf(before + after).issued == c.issued + Numbers(c.next, BlocksIn(after))
      && CountOf(before + after).next == c.next + BlocksIn(after)
  {
    var all := before + after;
    if after == [] {
      assert all == before;
      assert Numbers(CountOf(before).next, 0) == [];
    } else {
      assert all[..|all| - 1] == before + after[..|after| - 1];
      IssuedFrom(before, after[..|after| - 1]);
    }
  }

  /** The ids issued after a restore are all new exactly when the record restored is not behind those issued before. */
  lemma RestoredIdsNew(before: seq<Event>, save: Option<nat>, after: seq<Event>)
    requires WithoutRestores(after) && BlocksIn(after) > 0
    ensures var restored := before + [Restores(save)];
      var issued, all := CountOf(before).issued, CountOf(restored + after).issued;
      && issued <= all && |all| == |issued| + BlocksIn(after)
      && ((forall i :: |issued| <= i < |all| ==> all[i] !in issued) <==> CountOf(restored).next >= Unissued(issued))
  {
    var restored := before + [Restores(save)];
    var issued, all := CountOf(before).issued, CountOf(restored + after).issued;
    assert restored[..|restored| - 1] == before;
    IssuedFrom(restored, after);
    CountBounded(before);
    assert CountOf(restored).issued == issued;
    CountBounded(restored);
    var next := CountOf(restored).next;
    assert all[|issued|] == Numbers(next, BlocksIn(after))[0] == next;
    hide Unissued, CountOf;
    forall i | |issued| <= i < |all|
      ensures all[i] == next + i - |issued|
    {
      assert all[i] == Numbers(next, BlocksIn(after))[i - |issued|];
    }
  }

  /** Going back to a branch without a record, or to one saved earlier, the next id is one that was issued already. */
  lemma IssuedTwice(call: Blocked, now: int)
    ensures CountOf([Blocks(call, now), Restores(None), Blocks(call, now)]).issued == [1, 1]
    ensures CountOf([Saves, Blocks(call, now), Restores(Some(0)), Blocks(call, now)]).issued == [1, 1]
  {
    var a := [Blocks(call, now), Restores(None), Blocks(call, now)];
    assert a[..2][..1] == [a[0]] && a[..1][..0] == [];
    assert CountOf(a[..1]) == Count(2, [], [1]);
    assert CountOf(a[..2]) == Count(1, [], [1]);
    var b := [Saves, Blocks(call, now), Restores(Some(0)), Blocks(call, now)];
    assert b[..3][..2] == b[..2] && b[..2][..1] == b[..1] && b[..1][..0] == [];
    assert CountOf(b[..1]) == Count(1, [1], []);
    assert CountOf(b[..2]) == Count(2, [1], [1]);
    assert CountOf(b[..3]) == Count(1, [1], [1]);
  }

  // ---- the ledger as it runs ----

  /** A saved record gives back a numbered ledger, whose next id has that number. */
  ghost predicate Restorable(record: Option<PermissionRecord>, next: nat) {
    Numbered(RestoreOf(record)) && RestoreOf(record).nextId == next
  }

  ghost predicate AllRestorable(saves: seq<PermissionRecord>, nexts: seq<nat>) {
    |saves| == |nexts| && forall i :: 0 <= i < |saves| ==> Restorable(Some(saves[i]), nexts[i])
  }

  /** The ledger and the session's records are where the count says. */
  ghost predicate Follows(l: LedgerData.Ledger, saves: seq<PermissionRecord>, c: Count) {
    l.nextId == c.next && AllRestorable(saves, c.saved)
  }

  lemma NothingRestorable()
    ensures Restorable(None, 1)
  {
  }

  /** One event, and the session's records after it. */
  method Handle(ledger: PermissionLedger, saves: seq<PermissionRecord>, event: Event, ghost c: Count)
    returns (issued: Option<string>, log: seq<PermissionRecord>)
    requires ledger.Valid() && Follows(ledger.State(), saves, c)
    modifies ledger
    ensures ledger.Valid() && Follows(ledger.State(), log, Counted(c, event))
    ensures issued == if event.Blocks? then Some(Id(c.next)) else None
  {
    hide Numbered, Keyed, Hex64, Table, AddKey, Id, AllApproved, SnapshotOf, RestoreOf;
    issued, log := None, saves;
    match event {
      case Blocks(call, now) =>
        var denial := ledger.Record(call, now);
        issued := Some(denial.id);
      case Rejects(id) => ledger.Reject(id);
      case ClearsRejected => var _ := ledger.ClearRejected();
      case Approves(id, cwd, now) => var _ := ledger.Approve(id, cwd, now);
      case Dismisses(id) => ledger.Dismiss(id);
      case Remembers(toolName, input, folder, directories, owner, now) =>
        ledger.RememberScope(toolName, input, folder, directories, owner, now);
      case ClearsSimilar => var _ := ledger.ClearSimilar();
      case Refreshes(workspace, records) => ledger.RefreshSaved(workspace, records);
      case Revokes(key) => ledger.Revoke(key);
      case Saves =>
        var record := ledger.Snapshot();
        log := saves + [record];
      case Restores(save) =>
        NothingRestorable();
        ledger.Restore(if save.Some? && save.value < |saves| then Some(saves[save.value]) else None);
    }
  }

  function Ids(numbers: seq<nat>): seq<string> {
    seq(|numbers|, i requires 0 <= i < |numbers| => Id(numbers[i]))
  }

  /** A ledger and its session, event by event: the ids issued are those counted, one for each blocked call. */
  method RunLedger(ledger: PermissionLedger, events: seq<Event>) returns (issued: seq<string>)
    requires ledger.Valid() && ledger.nextId == 1
    modifies ledger
    ensures ledger.Valid() && ledger.nextId == CountOf(events).next
    ensures issued == Ids(CountOf(events).issued)
  {
    hide Id, Keyed, Hex64, Numbered, Counted;
    issued := [];
    var saves: seq<PermissionRecord> := [];
    for k := 0 to |events|
      invariant ledger.Valid() && Follows(ledger.State(), saves, CountOf(events[..k]))
      invariant issued == Ids(CountOf(events[..k]).issued)
    {
      assert events[..k + 1][..k] == events[..k];
      var id: Option<string>;
      id, saves := Handle(ledger, saves, events[k], CountOf(events[..k]));
      CountedIds(CountOf(events[..k]), events[k]);
      if id.Some? {
        issued := issued + [id.value];
      }
    }
    assert events[..|events|] == events;
  }

  lemma CountedIds(c: Count, event: Event)
    ensures Ids(Counted(c, event).issued) == Ids(c.issued) + if event.Blocks? then [Id(c.next)] else []
  {
  }

  /** One number is issued for each blocked call, and ids are distinct exactly when their numbers are. */
  lemma {:induction false} IssuedEach(events: seq<Event>)
    ensures |CountOf(events).issued| == BlocksIn(events)
    ensures Distinct(Ids(CountOf(events).issued)) <==> Distinct(CountOf(events).issued)
  {
    IssuedCount(events);
    var numbers := CountOf(events).issued;
    forall i | 0 <= i < |numbers|
      ensures IdNumber(Ids(numbers)[i]) == numbers[i]
    {
      IdReadsBack(numbers[i]);
    }
    hide Id, IdNumber, CountOf;
  }

  lemma {:induction false} IssuedCount(events: seq<Event>)
    ensures |CountOf(events).issued| == BlocksIn(events)
  {
    if events != [] {
      IssuedCount(events[..|events| - 1]);
    }
  }
}
