/** Bounds, order and conservation for every run of the minimap's record. */
module MinimapInvariant {
  import opened Prelude
  import opened Minimap

  // ---- what the record keeps ----

  ghost predicate NonIncreasing(history: seq<Beat>) {
    forall i, j :: 0 <= i < j < |history| ==> history[i].Level() >= history[j].Level()
  }

  ghost predicate Levelled(history: seq<Beat>) {
    forall i :: 0 <= i < |history| ==> history[i].level.Some? && 1 <= history[i].Level() <= HISTORY_LEVELS
  }

  /** What any snapshot that `restore` accepts satisfies, and what every run keeps. */
  ghost predicate WellFormed(s: Snapshot) {
    |s.recent| <= RECENT_LIMIT && |s.history| <= HISTORY_LIMIT && Levelled(s.history) && NonIncreasing(s.history)
  }

  /**
    The counts of the four levels between folds. A level that has just filled up is compacted by
    the next fold unless level 1 is full too, and level 1 is full only every third fold.
   */
  predicate PhaseOf(c1: nat, c2: nat, c3: nat, c4: nat) {
    && c1 <= 6 && c2 <= 6 && c3 <= 6 && c4 <= 6
    && (c2 == 6 ==> c1 == 4 && c3 <= 5 && c4 <= 5)
    && (c3 == 6 ==> c1 == 5 && c2 == 3 && c4 <= 5)
    && (c4 == 6 ==> c3 == 3 && ((c1 == 6 && c2 == 3) || (c1 == 4 && c2 == 4)))
  }

  predicate Phase(h: seq<Beat>) {
    PhaseOf(Count(h, 1), Count(h, 2), Count(h, 3), Count(h, 4))
  }

  ghost predicate SpanIn(b: Beat, messages: seq<Message>, last: nat) {
    1 <= Position(messages, b.from) <= Position(messages, b.to) <= last
  }

  ghost predicate Before(a: Beat, b: Beat, messages: seq<Message>) {
    Position(messages, a.from) < Position(messages, b.from)
  }

  /** Entries stand in the order of the messages they begin at, and reach no further than the last one read. */
  ghost predicate Placed(all: seq<Beat>, messages: seq<Message>, last: nat) {
    && (forall i :: 0 <= i < |all| ==> SpanIn(all[i], messages, last))
    && (forall i, j :: 0 <= i < j < |all| ==> Before(all[i], all[j], messages))
  }

  // ---- counting ----

  lemma {:induction false} CountAppend(a: seq<Beat>, b: seq<Beat>, l: nat)
    ensures Count(a + b, l) == Count(a, l) + Count(b, l)
  {
    if b == [] {
      assert a + b == a;
    } else {
      assert (a + b)[..|a + b| - 1] == a + b[..|b| - 1];
      CountAppend(a, b[..|b| - 1], l);
    }
  }

  lemma {:induction false} TotalAppend(a: seq<Beat>, b: seq<Beat>)
    ensures TotalOmitted(a + b) == TotalOmitted(a) + TotalOmitted(b)
  {
    if b == [] {
      assert a + b == a;
    } else {
      assert (a + b)[..|a + b| - 1] == a + b[..|b| - 1];
      TotalAppend(a, b[..|b| - 1]);
    }
  }

  lemma {:induction false} CountUniform(items: seq<Beat>, l: nat, k: nat)
    requires forall i :: 0 <= i < |items| ==> items[i].Level() == l
    ensures Count(items, k) == if k == l then |items| else 0
  {
    if items != [] {
      CountUniform(items[..|items| - 1], l, k);
    }
  }

  /** Every entry of a levelled history is counted at one of the four levels. */
  lemma {:induction false} CountsCover(h: seq<Beat>)
    requires Levelled(h)
    ensures |h| == Count(h, 1) + Count(h, 2) + Count(h, 3) + Count(h, 4)
  {
    if h != [] {
      CountsCover(h[..|h| - 1]);
    }
  }

  // ---- a level is one contiguous stretch ----

  function Above(h: seq<Beat>, l: nat): nat {
    if h == [] then 0 else Above(h[..|h| - 1], l) + (if h[|h| - 1].Level() > l then 1 else 0)
  }

  lemma {:induction false} AboveMeans(h: seq<Beat>, l: nat)
    requires NonIncreasing(h)
    ensures Above(h, l) <= |h|
    ensures forall i :: 0 <= i < |h| ==> (h[i].Level() > l <==> i < Above(h, l))
  {
    if h != [] {
      AboveMeans(h[..|h| - 1], l);
    }
  }

  lemma {:induction false} LevelStretch(h: seq<Beat>, l: nat)
    requires NonIncreasing(h)
    ensures Above(h, l) + Count(h, l) <= |h|
    ensures forall j :: 0 <= j < Count(h, l) ==> LevelIndices(h, l)[j] == Above(h, l) + j
    ensures h != [] && h[|h| - 1].Level() >= l ==> Above(h, l) + Count(h, l) == |h|
  {
    if h != [] {
      LevelStretch(h[..|h| - 1], l);
      AboveMeans(h, l);
      AboveMeans(h[..|h| - 1], l);
    }
  }

  lemma {:induction false} CombineSlice(h: seq<Beat>, k: nat, m: Beat)
    ensures Combine(h, [k, k + 1, k + 2], m) ==
      if |h| <= k then h else h[..k] + [m] + (if |h| >= k + 3 then h[k + 3..] else [])
  {
    if h != [] {
      CombineSlice(h[..|h| - 1], k, m);
    }
  }

  lemma StretchIndices(h: seq<Beat>, l: nat)
    requires NonIncreasing(h) && Count(h, l) >= FOLD_SIZE
    ensures var k := Above(h, l);
      k + 3 <= |h| && LevelIndices(h, l)[..FOLD_SIZE] == [k, k + 1, k + 2] &&
      forall i :: k <= i < k + 3 ==> h[i].Level() == l
  {
    hide LevelIndices, Above, Count, NonIncreasing;
    var k, r := Above(h, l), LevelIndices(h, l);
    LevelStretch(h, l);
    assert r[0] == k + 0 && r[1] == k + 1 && r[2] == k + 2;
    assert r[..3] == [r[0], r[1], r[2]];
  }

  function NextLevel(l: nat): nat {
    if l < HISTORY_LEVELS then l + 1 else HISTORY_LEVELS
  }

  /** h is pre + items + post around its stretch of level l, and items are what a compaction takes. */
  ghost predicate SplitAt(h: seq<Beat>, l: nat, pre: seq<Beat>, items: seq<Beat>, post: seq<Beat>) {
    && h == pre + items + post && |items| == FOLD_SIZE
    && (forall b :: b in pre ==> b.Level() > l)
    && (forall b :: b in items ==> b.Level() == l)
    && (forall b :: b in post ==> b.Level() <= l)
  }

  /** One compaction replaces three neighbouring entries of the lowest full level by one of the next. */
  lemma CompactedSplit(h: seq<Beat>, text: string) returns (l: nat, pre: seq<Beat>, items: seq<Beat>, post: seq<Beat>)
    requires NonIncreasing(h) && CompactionFrom(h, 1).Some?
    ensures 1 <= l <= HISTORY_LEVELS && Count(h, l) >= HISTORY_PER_LEVEL && NoneFull(h, 1, l)
    ensures SplitAt(h, l, pre, items, post)
    ensures Compacted(h, text) == pre + [Merge(items, text, NextLevel(l))] + post
  {
    hide LevelIndices, Above, Count, NonIncreasing, CompactionFrom, Merge;
    l := CompactedLevel(h, 1);
    var k := Above(h, l);
    StretchIndices(h, l);
    AboveMeans(h, l);
    pre, items, post := h[..k], h[k..k + 3], h[k + 3..];
    assert SplitAt(h, l, pre, items, post);
    var c := CompactionFrom(h, 1).value;
    assert seq(FOLD_SIZE, i requires 0 <= i < FOLD_SIZE => h[c.indices[i]]) == items;
    CombineSlice(h, k, Merge(items, text, c.level));
  }

  // ---- bounds ----

  lemma LevelsAround(pre: seq<Beat>, m: Beat, post: seq<Beat>, l: nat)
    requires Levelled(pre + post) && NonIncreasing(pre) && NonIncreasing(post) && 1 <= l <= HISTORY_LEVELS
    requires m.level == Some(NextLevel(l))
    requires (forall b :: b in pre ==> b.Level() > l) && (forall b :: b in post ==> b.Level() <= l)
    ensures Levelled(pre + [m] + post) && NonIncreasing(pre + [m] + post)
  {
    var all := pre + [m] + post;
    forall i | 0 <= i < |all| ensures all[i].level.Some? && 1 <= all[i].Level() <= HISTORY_LEVELS {
      if i != |pre| {
        var j := if i < |pre| then i else i - 1;
        assert all[i] == (pre + post)[j];
      }
    }
    assert forall b :: b in pre ==> b.Level() >= m.Level() by {
      forall b | b in pre ensures b.Level() >= m.Level() {}
    }
  }

  lemma SlicesKeepLevels(h: seq<Beat>, pre: seq<Beat>, items: seq<Beat>, post: seq<Beat>)
    requires Levelled(h) && NonIncreasing(h) && h == pre + items + post
    ensures Levelled(pre + post) && NonIncreasing(pre) && NonIncreasing(post)
  {
    var off := |pre| + |items|;
    assert pre == h[..|pre|] && post == h[off..];
    forall i | 0 <= i < |pre + post|
      ensures (pre + post)[i] == h[if i < |pre| then i else i + |items|]
    {
    }
  }

  lemma SplitKeepsLevels(h: seq<Beat>, l: nat, pre: seq<Beat>, items: seq<Beat>, post: seq<Beat>, m: Beat)
    requires Levelled(h) && NonIncreasing(h) && SplitAt(h, l, pre, items, post) && 1 <= l <= HISTORY_LEVELS
    requires m.level == Some(NextLevel(l))
    ensures Levelled(pre + [m] + post) && NonIncreasing(pre + [m] + post)
  {
    hide Levelled, NonIncreasing;
    SlicesKeepLevels(h, pre, items, post);
    LevelsAround(pre, m, post, l);
  }

  lemma CompactedKeepsLevels(h: seq<Beat>, text: string)
    requires Levelled(h) && NonIncreasing(h)
    ensures Levelled(Compacted(h, text)) && NonIncreasing(Compacted(h, text))
    ensures |Compacted(h, text)| == if CompactionFrom(h, 1).Some? then |h| - 2 else |h|
  {
    hide Levelled, NonIncreasing, Combine;
    if CompactionFrom(h, 1).Some? {
      var l, pre, items, post := CompactedSplit(h, text);
      SplitKeepsLevels(h, l, pre, items, post, Merge(items, text, NextLevel(l)));
    }
  }

  /** A history at its limit has a full level, so the fold that adds an entry first removes two. */
  lemma FullHistoryCompacts(h: seq<Beat>)
    requires Levelled(h) && |h| > 4 * (HISTORY_PER_LEVEL - 1)
    ensures CompactionFrom(h, 1).Some?
  {
    var l := CompactedLevel(h, 1);
    if l == HISTORY_LEVELS + 1 {
      NoneFullSmall(h);
    }
  }

  lemma NoneFullSmall(h: seq<Beat>)
    requires Levelled(h) && NoneFull(h, 1, HISTORY_LEVELS + 1)
    ensures |h| <= 4 * (HISTORY_PER_LEVEL - 1)
  {
    CountsCover(h);
    assert forall l :: 1 <= l < 5 ==> Count(h, l) < HISTORY_PER_LEVEL;
  }

  lemma FoldedWellFormed(s: Snapshot, summary: Summary)
    requires WellFormed(s)
    ensures WellFormed(Folded(s, summary)) && |Folded(s, summary).recent| < RECENT_LIMIT
  {
    if |s.recent| >= RECENT_LIMIT {
      CompactedKeepsLevels(s.history, summary.compact);
      if |s.history| == HISTORY_LIMIT {
        FullHistoryCompacts(s.history);
      }
    }
  }

  lemma {:induction false} ReviseShrinks(recent: seq<Beat>, i: nat, drops: set<nat>, replace: Option<nat>,
                                         item: Option<Beat>)
    requires i <= |recent|
    ensures |Revise(recent, i, drops, replace, item)| <= |recent| - i
    decreases |recent| - i
  {
    if i < |recent| {
      ReviseShrinks(recent, i + 1, drops, replace, item);
    }
  }

  /** From any accepted snapshot the record stays within its limits and its levels in order. */
  lemma ApplyWellFormed(s: Snapshot, batch: Batch, summary: Summary, recap: bool, norm: string -> string)
    requires WellFormed(s) && Apply(s, batch, summary, recap, norm).Some?
    ensures WellFormed(Apply(s, batch, summary, recap, norm).value)
  {
    var recent := Revision(s, batch, summary, recap, norm);
    assert |recent| <= |s.recent| by {
      var replace := ReplacedIndex(s, summary, norm);
      var item :=
        if replace.Some? && summary.beat != "" then
          Some(RevisedItem(s.recent[replace.value], batch, summary, recap,
                           DuplicateOf(s.recent, summary, norm) == replace))
        else None;
      ReviseShrinks(s.recent, 0, Omitting(summary), replace, item);
    }
    FoldedWellFormed(Snapshot(batch.to, s.history, recent, summary.now, summary.focus), summary);
  }

  // ---- at most six per level ----

  lemma CountReplaced(pre: seq<Beat>, items: seq<Beat>, post: seq<Beat>, m: Beat, l: nat, j: nat)
    requires forall b :: b in items ==> b.Level() == l
    ensures Count(pre + [m] + post, j) + (if j == l then |items| else 0)
      == Count(pre + items + post, j) + (if j == m.Level() then 1 else 0)
  {
    CountUniform(items, l, j);
    CountUniform([m], m.Level(), j);
    CountAppend(pre + items, post, j);
    CountAppend(pre, items, j);
    CountAppend(pre + [m], post, j);
    CountAppend(pre, [m], j);
  }

  /** What one compaction does to the count of each level. */
  ghost predicate Shifted(h: seq<Beat>, c: seq<Beat>, l: nat, j: nat) {
    Count(c, j) + (if j == l then 3 else 0) == Count(h, j) + (if j == NextLevel(l) then 1 else 0)
  }

  lemma CompactedCounts(h: seq<Beat>, text: string) returns (l: nat)
    requires NonIncreasing(h)
    ensures 1 <= l <= HISTORY_LEVELS + 1 && NoneFull(h, 1, l)
    ensures l == HISTORY_LEVELS + 1 ==> Compacted(h, text) == h
    ensures l <= HISTORY_LEVELS ==> Count(h, l) >= HISTORY_PER_LEVEL && forall j :: Shifted(h, Compacted(h, text), l, j)
  {
    if CompactionFrom(h, 1).None? {
      l := CompactedLevel(h, 1);
    } else {
      var pre, items, post;
      l, pre, items, post := CompactedSplit(h, text);
      forall j: nat ensures Shifted(h, Compacted(h, text), l, j) {
        CountReplaced(pre, items, post, Merge(items, text, NextLevel(l)), l, j);
      }
    }
  }

  /** A fold keeps the phase although it compacts at most one level. */
  lemma FoldKeepsPhase(s: Snapshot, summary: Summary)
    requires Levelled(s.history) && NonIncreasing(s.history) && Phase(s.history)
    ensures Phase(Folded(s, summary).history)
  {
    if |s.recent| >= RECENT_LIMIT {
      var h, c := s.history, Compacted(s.history, summary.compact);
      var m := Merge(s.recent[..FOLD_SIZE], summary.folded, 1);
      var l := CompactedCounts(h, summary.compact);
      forall j: nat ensures Count(c + [m], j) == Count(c, j) + (if j == 1 then 1 else 0) {
        CountAppend(c, [m], j);
        CountUniform([m], 1, j);
      }
      assert l <= 4 ==> Shifted(h, c, l, 1) && Shifted(h, c, l, 2) && Shifted(h, c, l, 3) && Shifted(h, c, l, 4);
    }
  }

  lemma ApplyKeepsPhase(s: Snapshot, batch: Batch, summary: Summary, recap: bool, norm: string -> string)
    requires WellFormed(s) && Phase(s.history) && Apply(s, batch, summary, recap, norm).Some?
    ensures Phase(Apply(s, batch, summary, recap, norm).value.history)
  {
    var revision := Revision(s, batch, summary, recap, norm);
    FoldKeepsPhase(Snapshot(batch.to, s.history, revision, summary.now, summary.focus), summary);
  }

  datatype Update = Update(batch: Batch, summary: Summary, recap: bool)

  /** Summaries applied one after another; a rejected revision changes nothing. */
  function Updates(s: Snapshot, updates: seq<Update>, norm: string -> string): Snapshot {
    if updates == [] then s
    else
      var before := Updates(s, updates[..|updates| - 1], norm);
      var u := updates[|updates| - 1];
      var r := Apply(before, u.batch, u.summary, u.recap, norm);
      if r.Some? then r.value else before
  }

  /** From any snapshot `restore` accepts, however many updates follow. */
  lemma {:induction false} UpdatesWellFormed(s: Snapshot, updates: seq<Update>, norm: string -> string)
    requires WellFormed(s)
    ensures WellFormed(Updates(s, updates, norm))
  {
    if updates != [] {
      UpdatesWellFormed(s, updates[..|updates| - 1], norm);
      var before, u := Updates(s, updates[..|updates| - 1], norm), updates[|updates| - 1];
      if Apply(before, u.batch, u.summary, u.recap, norm).Some? {
        ApplyWellFormed(before, u.batch, u.summary, u.recap, norm);
      }
    }
  }

  /** A version 1 snapshot brings at most one opening paragraph (level 4) and two chapters (level 1). */
  ghost predicate FromVersion1(s: Snapshot) {
    && |s.recent| <= RECENT_LIMIT
    && exists earlier: seq<Beat>, chapters: seq<Beat> :: VersionOneParts(s.history, earlier, chapters)
  }

  ghost predicate VersionOneParts(history: seq<Beat>, earlier: seq<Beat>, chapters: seq<Beat>) {
    && history == earlier + chapters && |earlier| <= 1 && |chapters| <= 2
    && (forall i :: 0 <= i < |earlier| ==> earlier[i].level == Some(HISTORY_LEVELS))
    && (forall i :: 0 <= i < |chapters| ==> chapters[i].level == Some(1))
  }

  lemma VersionOneStarts(s: Snapshot)
    requires FromVersion1(s)
    ensures WellFormed(s) && Phase(s.history)
  {
    hide Count, NonIncreasing, Levelled;
    var earlier, chapters :| VersionOneParts(s.history, earlier, chapters);
    VersionOneCounts(earlier, chapters, 1);
    VersionOneCounts(earlier, chapters, 2);
    VersionOneCounts(earlier, chapters, 3);
    VersionOneCounts(earlier, chapters, 4);
    VersionOneLevels(earlier, chapters);
  }

  lemma VersionOneLevels(earlier: seq<Beat>, chapters: seq<Beat>)
    requires VersionOneParts(earlier + chapters, earlier, chapters)
    ensures Levelled(earlier + chapters) && NonIncreasing(earlier + chapters)
  {
  }

  lemma VersionOneCounts(earlier: seq<Beat>, chapters: seq<Beat>, j: nat)
    requires VersionOneParts(earlier + chapters, earlier, chapters)
    ensures Count(earlier + chapters, j) == (if j == 4 then |earlier| else 0) + (if j == 1 then |chapters| else 0)
  {
    CountAppend(earlier, chapters, j);
    CountUniform(earlier, HISTORY_LEVELS, j);
    CountUniform(chapters, 1, j);
  }

  lemma {:induction false} UpdatesPhase(s: Snapshot, updates: seq<Update>, norm: string -> string)
    requires WellFormed(s) && Phase(s.history)
    ensures Phase(Updates(s, updates, norm).history)
  {
    if updates != [] {
      var before, u := Updates(s, updates[..|updates| - 1], norm), updates[|updates| - 1];
      UpdatesPhase(s, updates[..|updates| - 1], norm);
      UpdatesWellFormed(s, updates[..|updates| - 1], norm);
      if Apply(before, u.batch, u.summary, u.recap, norm).Some? {
        ApplyKeepsPhase(before, u.batch, u.summary, u.recap, norm);
      }
    }
  }

  /** No level ever holds more than six entries, from the empty snapshot or a version 1 one. */
  lemma LevelCaps(s: Snapshot, updates: seq<Update>, norm: string -> string, l: nat)
    requires s == EMPTY_SNAPSHOT || FromVersion1(s)
    ensures Count(Updates(s, updates, norm).history, l) <= HISTORY_PER_LEVEL
  {
    hide Updates, FromVersion1;
    if s != EMPTY_SNAPSHOT {
      VersionOneStarts(s);
    }
    UpdatesWellFormed(s, updates, norm);
    UpdatesPhase(s, updates, norm);
    if !(1 <= l <= HISTORY_LEVELS) {
      OtherLevelsEmpty(Updates(s, updates, norm).history, l);
    }
  }

  lemma {:induction false} OtherLevelsEmpty(h: seq<Beat>, l: nat)
    requires Levelled(h) && !(1 <= l <= HISTORY_LEVELS)
    ensures Count(h, l) == 0
  {
    if h != [] {
      OtherLevelsEmpty(h[..|h| - 1], l);
    }
  }

  // ---- conservation of omitted counts ----

  /** What the dropped entries from position i on had counted. */
  function DroppedOmitted(recent: seq<Beat>, i: nat, drops: set<nat>): nat
    requires i <= |recent|
    decreases |recent| - i
  {
    if i == |recent| then 0 else (if i in drops then recent[i].omitted else 0) + DroppedOmitted(recent, i + 1, drops)
  }

  lemma TotalOne(b: Beat)
    ensures TotalOmitted([b]) == b.omitted
  {
    assert [b][..0] == [];
  }

  lemma {:induction false} ReviseConserves(recent: seq<Beat>, i: nat, drops: set<nat>, replace: Option<nat>,
                                           item: Option<Beat>, more: nat)
    requires i <= |recent| && (item.Some? ==> replace.Some?)
    requires item.Some? ==>
      replace.value < |recent| && replace.value !in drops && item.value.omitted == recent[replace.value].omitted + more
    ensures TotalOmitted(Revise(recent, i, drops, replace, item)) + DroppedOmitted(recent, i, drops)
      == TotalOmitted(recent[i..]) + if item.Some? && i <= replace.value then more else 0
    decreases |recent| - i
  {
    if i < |recent| {
      ReviseConserves(recent, i + 1, drops, replace, item, more);
      var rest := Revise(recent, i + 1, drops, replace, item);
      assert recent[i..] == [recent[i]] + recent[i + 1..];
      TotalAppend([recent[i]], recent[i + 1..]);
      TotalOne(recent[i]);
      if i in drops {
        assert Revise(recent, i, drops, replace, item) == rest;
      } else if Some(i) == replace && item.Some? {
        TotalAppend([item.value], rest);
        TotalOne(item.value);
      } else {
        TotalAppend([recent[i]], rest);
      }
    }
  }

  lemma TotalReplaced(pre: seq<Beat>, items: seq<Beat>, post: seq<Beat>, m: Beat)
    requires m.omitted == TotalOmitted(items)
    ensures TotalOmitted(pre + [m] + post) == TotalOmitted(pre + items + post)
  {
    TotalOne(m);
    TotalAppend(pre + items, post);
    TotalAppend(pre, items);
    TotalAppend(pre + [m], post);
    TotalAppend(pre, [m]);
  }

  lemma CompactedConserves(h: seq<Beat>, text: string)
    requires NonIncreasing(h)
    ensures TotalOmitted(Compacted(h, text)) == TotalOmitted(h)
  {
    if CompactionFrom(h, 1).Some? {
      var l, pre, items, post := CompactedSplit(h, text);
      TotalReplaced(pre, items, post, Merge(items, text, NextLevel(l)));
    }
  }

  function Total(s: Snapshot): nat {
    TotalOmitted(s.history) + TotalOmitted(s.recent)
  }

  lemma FoldConserves(s: Snapshot, summary: Summary)
    requires NonIncreasing(s.history)
    ensures Total(Folded(s, summary)) == Total(s)
  {
    if |s.recent| >= RECENT_LIMIT {
      CompactedConserves(s.history, summary.compact);
      var m := Merge(s.recent[..3], summary.folded, 1);
      TotalOne(m);
      TotalAppend(Compacted(s.history, summary.compact), [m]);
      assert s.recent == s.recent[..3] + s.recent[3..];
      TotalAppend(s.recent[..3], s.recent[3..]);
    }
  }

  /** A recorded beat adds exactly the batch's omitted count, drops take theirs away, folding conserves the rest. */
  lemma ApplyConserves(s: Snapshot, batch: Batch, summary: Summary, recap: bool, norm: string -> string)
    requires NonIncreasing(s.history) && Apply(s, batch, summary, recap, norm).Some?
    ensures Total(Apply(s, batch, summary, recap, norm).value) + DroppedOmitted(s.recent, 0, Omitting(summary))
      == Total(s) + if summary.beat != "" then batch.omitted else 0
  {
    var replace := ReplacedIndex(s, summary, norm);
    var item :=
      if replace.Some? && summary.beat != "" then
        Some(RevisedItem(s.recent[replace.value], batch, summary, recap,
                         DuplicateOf(s.recent, summary, norm) == replace))
      else None;
    ReviseConserves(s.recent, 0, Omitting(summary), replace, item, batch.omitted);
    assert s.recent[0..] == s.recent;
    var revised := Snapshot(batch.to, s.history, Revision(s, batch, summary, recap, norm), summary.now, summary.focus);
    FoldConserves(revised, summary);
    var b := NewBeat(batch, summary, recap);
    TotalOne(b);
    TotalAppend(Folded(revised, summary).recent, [b]);
  }

  // ---- order ----

  lemma PlacedLater(all: seq<Beat>, messages: seq<Message>, last: nat, later: nat)
    requires Placed(all, messages, last) && last <= later
    ensures Placed(all, messages, later)
  {
  }

  lemma PlacedDrop(pre: seq<Beat>, x: Beat, post: seq<Beat>, messages: seq<Message>, last: nat)
    requires Placed(pre + [x] + post, messages, last)
    ensures Placed(pre + post, messages, last)
  {
    var a, b := pre + [x] + post, pre + post;
    forall i | 0 <= i < |b| ensures b[i] == a[if i < |pre| then i else i + 1] {}
    forall i | 0 <= i < |b| ensures SpanIn(b[i], messages, last) {
      assert SpanIn(a[if i < |pre| then i else i + 1], messages, last);
    }
    forall i, j | 0 <= i < j < |b| ensures Before(b[i], b[j], messages) {
      assert Before(a[if i < |pre| then i else i + 1], a[if j < |pre| then j else j + 1], messages);
    }
  }

  /** Neighbours may be merged into one entry that begins where the first does and ends where the last does. */
  /** Only where entries begin counts for their order. */
  lemma SameStart(x: Beat, y: Beat, z: Beat, messages: seq<Message>)
    requires x.from == y.from
    ensures Before(x, z, messages) <==> Before(y, z, messages)
    ensures Before(z, x, messages) <==> Before(z, y, messages)
  {
  }

  /** One entry in the place of some spans what they span. */
  lemma MergedSpan(first: Beat, end: Beat, m: Beat, messages: seq<Message>, last: nat)
    requires SpanIn(first, messages, last) && SpanIn(end, messages, last)
    requires first == end || Before(first, end, messages)
    requires m.from == first.from && (m.to == end.to || Position(messages, m.to) == last)
    ensures SpanIn(m, messages, last)
  {
  }

  lemma PlacedMerge(pre: seq<Beat>, items: seq<Beat>, post: seq<Beat>, m: Beat, messages: seq<Message>, last: nat)
    requires items != [] && Placed(pre + items + post, messages, last)
    requires m.from == items[0].from
    requires m.to == items[|items| - 1].to || Position(messages, m.to) == last
    ensures Placed(pre + [m] + post, messages, last)
  {
    hide Before, SpanIn;
    var a, b := pre + items + post, pre + [m] + post;
    var n := |items| - 1;
    assert a[|pre|] == items[0] && a[|pre| + n] == items[n] && b[|pre|] == m;
    MergedSpan(items[0], items[n], m, messages, last);
    forall i | 0 <= i < |b|
      ensures SpanIn(b[i], messages, last)
    {
      assert i < |pre| ==> b[i] == a[i];
      assert i > |pre| ==> b[i] == a[i + n];
    }
    forall i, j | 0 <= i < j < |b|
      ensures Before(b[i], b[j], messages)
    {
      var x, y := a[if i <= |pre| then i else i + n], a[if j <= |pre| then j else j + n];
      assert Before(x, y, messages);
      assert x.from == b[i].from && y.from == b[j].from;
      SameStart(x, b[i], y, messages);
      SameStart(y, b[j], b[i], messages);
    }
  }

  lemma {:induction false} RevisePlaced(pre: seq<Beat>, recent: seq<Beat>, i: nat, drops: set<nat>,
                                        replace: Option<nat>,
                                        item: Option<Beat>, messages: seq<Message>, last: nat)
    requires i <= |recent| && Placed(pre + recent[i..], messages, last)
    requires item.Some? ==> replace.Some? && replace.value < |recent| && item.value.from == recent[replace.value].from
    requires item.Some? ==> Position(messages, item.value.to) == last
    ensures Placed(pre + Revise(recent, i, drops, replace, item), messages, last)
    decreases |recent| - i
  {
    if i < |recent| {
      assert pre + recent[i..] == pre + [recent[i]] + recent[i + 1..];
      var rest := Revise(recent, i + 1, drops, replace, item);
      if i in drops {
        PlacedDrop(pre, recent[i], recent[i + 1..], messages, last);
        RevisePlaced(pre, recent, i + 1, drops, replace, item, messages, last);
        assert Revise(recent, i, drops, replace, item) == rest;
      } else {
        var x := if Some(i) == replace && item.Some? then item.value else recent[i];
        PlacedMerge(pre, [recent[i]], recent[i + 1..], x, messages, last);
        RevisePlaced(pre + [x], recent, i + 1, drops, replace, item, messages, last);
        assert pre + Revise(recent, i, drops, replace, item) == pre + [x] + rest;
      }
    } else {
      assert recent[i..] == [] == Revise(recent, i, drops, replace, item);
    }
  }

  lemma Regroup(a: seq<Beat>, b: seq<Beat>, c: seq<Beat>, d: seq<Beat>)
    ensures a + b + c + d == a + b + (c + d)
  {
  }

  lemma CompactedPlaced(h: seq<Beat>, text: string, post: seq<Beat>, messages: seq<Message>, last: nat)
    requires NonIncreasing(h) && Placed(h + post, messages, last)
    ensures Placed(Compacted(h, text) + post, messages, last)
  {
    if CompactionFrom(h, 1).Some? {
      var l, a, items, b := CompactedSplit(h, text);
      var m := Merge(items, text, NextLevel(l));
      Regroup(a, items, b, post);
      Regroup(a, [m], b, post);
      PlacedMerge(a, items, b + post, m, messages, last);
    }
  }

  lemma FoldedPlaced(s: Snapshot, summary: Summary, messages: seq<Message>, last: nat)
    requires NonIncreasing(s.history) && Placed(s.history + s.recent, messages, last)
    ensures Placed(Folded(s, summary).history + Folded(s, summary).recent, messages, last)
  {
    if |s.recent| >= RECENT_LIMIT {
      var c := Compacted(s.history, summary.compact);
      CompactedPlaced(s.history, summary.compact, s.recent, messages, last);
      var m := Merge(s.recent[..3], summary.folded, 1);
      assert c + s.recent == c + s.recent[..3] + s.recent[3..];
      PlacedMerge(c, s.recent[..3], s.recent[3..], m, messages, last);
    }
  }

  lemma PlacedSnoc(all: seq<Beat>, b: Beat, messages: seq<Message>, before: nat, last: nat)
    requires Placed(all, messages, before) && before < Position(messages, b.from) <= Position(messages, b.to) <= last
    ensures Placed(all + [b], messages, last)
  {
    var more := all + [b];
    forall i | 0 <= i < |more| ensures SpanIn(more[i], messages, last) {
      assert i < |all| ==> SpanIn(all[i], messages, before);
    }
    forall i, j | 0 <= i < j < |more| ensures Before(more[i], more[j], messages) {
      assert SpanIn(more[i], messages, last) && (j < |all| ==> Before(all[i], all[j], messages));
      assert j == |all| ==> SpanIn(all[i], messages, before);
    }
  }

  /** Applying the summary of a batch that begins after everything read so far keeps the entries in order. */
  lemma ApplyPlaced(s: Snapshot, batch: Batch, summary: Summary, recap: bool, norm: string -> string,
                    messages: seq<Message>)
    requires NonIncreasing(s.history)
    requires Placed(s.history + s.recent, messages, Position(messages, s.lastId))
    requires Position(messages, s.lastId) < Position(messages, batch.from) <= Position(messages, batch.to)
    requires Apply(s, batch, summary, recap, norm).Some?
    ensures var r := Apply(s, batch, summary, recap, norm).value;
      Placed(r.history + r.recent, messages, Position(messages, r.lastId)) && r.lastId == batch.to
  {
    hide Placed, Revise, Compacted, DuplicateOf, NonIncreasing;
    var before, last := Position(messages, s.lastId), Position(messages, batch.to);
    var replace := ReplacedIndex(s, summary, norm);
    var item :=
      if replace.Some? && summary.beat != "" then
        Some(RevisedItem(s.recent[replace.value], batch, summary, recap,
                         DuplicateOf(s.recent, summary, norm) == replace))
      else None;
    var revised := Snapshot(batch.to, s.history, Revision(s, batch, summary, recap, norm), summary.now, summary.focus);
    assert s.recent[0..] == s.recent;
    PlacedLater(s.history + s.recent, messages, before, last);
    RevisePlaced(s.history, s.recent, 0, Omitting(summary), replace, item, messages, last);
    if summary.beat != "" && replace.None? {
      RevisePlaced(s.history, s.recent, 0, Omitting(summary), replace, item, messages, before);
      FoldedPlaced(revised, summary, messages, before);
      var f := Folded(revised, summary);
      var b := NewBeat(batch, summary, recap);
      assert f.history + (f.recent + [b]) == (f.history + f.recent) + [b];
      PlacedSnoc(f.history + f.recent, b, messages, before, last);
    }
  }
}
