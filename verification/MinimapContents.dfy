/** What an update leaves of the recent entries, and that it repeats none of them. */
module MinimapContents {
  import opened Prelude
  import opened Minimap
  import opened MinimapTexts
  import MinimapFocus
  import opened MinimapReplies

  /** An entry after a revision: the revised one in its place, and any other as it was. */
  function Part(recent: seq<Beat>, k: nat, replace: Option<nat>, item: Option<Beat>): Beat
    requires k < |recent|
  {
    if Some(k) == replace && item.Some? then item.value else recent[k]
  }

  function Parts(recent: seq<Beat>, kept: seq<nat>, replace: Option<nat>, item: Option<Beat>): seq<Beat>
    requires forall i :: 0 <= i < |kept| ==> kept[i] < |recent|
  {
    seq(|kept|, i requires 0 <= i < |kept| => Part(recent, kept[i], replace, item))
  }

  lemma {:induction false} ReviseSnoc(recent: seq<Beat>, i: nat, drops: set<nat>, replace: Option<nat>,
                                      item: Option<Beat>)
    requires i < |recent|
    ensures var n := |recent| - 1;
      Revise(recent, i, drops, replace, item) ==
        Revise(recent[..n], i, drops, replace, item) + if n in drops then [] else [Part(recent, n, replace, item)]
    decreases |recent| - i
  {
    var n := |recent| - 1;
    if i < n {
      ReviseSnoc(recent, i + 1, drops, replace, item);
    }
  }

  /** A revision keeps exactly the entries that are not dropped, in order, each as it was but for the one revised. */
  lemma {:induction false} ReviseContents(recent: seq<Beat>, drops: set<nat>, replace: Option<nat>, item: Option<Beat>)
    ensures Revise(recent, 0, drops, replace, item) == Parts(recent, Places(|recent|, drops), replace, item)
  {
    if recent != [] {
      var n := |recent| - 1;
      ReviseSnoc(recent, 0, drops, replace, item);
      ReviseContents(recent[..n], drops, replace, item);
      hide Revise;
    }
  }

  function Kept(s: Snapshot, summary: Summary): seq<nat> {
    Places(|s.recent|, Omitting(summary))
  }

  lemma RevisionContents(s: Snapshot, batch: Batch, summary: Summary, recap: bool, norm: string -> string)
    requires ValidRevision(s, summary)
    ensures var r := Revision(s, batch, summary, recap, norm);
      var kept := Kept(s, summary);
      var at := ReplacedIndex(s, summary, norm);
      && |r| == |kept|
      && (forall i :: 0 <= i < |kept| && (Some(kept[i]) != at || summary.beat == "") ==> r[i] == s.recent[kept[i]])
      && (forall i :: 0 <= i < |kept| && Some(kept[i]) == at && summary.beat != "" ==>
            r[i] == RevisedItem(s.recent[kept[i]], batch, summary, recap, DuplicateOf(s.recent, summary, norm) == at))
  {
    hide Revise, Places, DuplicateOf;
    var at := ReplacedIndex(s, summary, norm);
    var item :=
      if at.Some? && summary.beat != "" then
        Some(RevisedItem(s.recent[at.value], batch, summary, recap, DuplicateOf(s.recent, summary, norm) == at))
      else None;
    ReviseContents(s.recent, Omitting(summary), at, item);
  }

  /** Without a beat the kept entries stay as they are, in order. */
  lemma QuietContents(s: Snapshot, batch: Batch, summary: Summary, recap: bool, norm: string -> string)
    requires Apply(s, batch, summary, recap, norm).Some? && summary.beat == ""
    ensures var r := Apply(s, batch, summary, recap, norm).value;
      var kept := Kept(s, summary);
      && r.history == s.history && |r.recent| == |kept|
      && forall i :: 0 <= i < |kept| ==> r.recent[i] == s.recent[kept[i]]
  {
    RevisionContents(s, batch, summary, recap, norm);
    hide Revision, Kept, ReplacedIndex;
  }

  /** The first kept entry that reads like the beat. */
  ghost predicate ReadsFirst(s: Snapshot, summary: Summary, norm: string -> string, i: nat) {
    && i < |s.recent| && i !in summary.dropRecent && norm(s.recent[i].text) == norm(summary.beat)
    && forall j :: 0 <= j < i && j !in summary.dropRecent ==> norm(s.recent[j].text) != norm(summary.beat)
  }

  /** A beat goes in the place it names, or else in that of the first kept entry that reads like it, or is new. */
  lemma PlaceMeans(s: Snapshot, summary: Summary, norm: string -> string, i: nat)
    ensures if summary.replaceRecent.Some? then ReplacedIndex(s, summary, norm) == summary.replaceRecent
      else ReplacedIndex(s, summary, norm) == Some(i) <==> ReadsFirst(s, summary, norm, i)
    ensures DuplicateOf(s.recent, summary, norm) == Some(i) <==> ReadsFirst(s, summary, norm, i)
  {
    assert forall j :: j in Omitting(summary) <==> j in summary.dropRecent;
  }

  /** An entry rewritten: it begins where it did, keeps its time if it read like the beat already, and adds up. */
  ghost predicate Rewritten(before: Beat, after: Beat, batch: Batch, summary: Summary, recap: bool, again: bool) {
    && after.text == summary.beat && after.tone == summary.tone && after.from == before.from && after.to == batch.to
    && after.kind == (if summary.kind.Some? then summary.kind else before.kind)
    && after.at == (if again then before.at else batch.at) && (after.recap <==> before.recap || recap)
    && after.omitted == before.omitted + batch.omitted
    && after.level == before.level && after.bullets == before.bullets
  }

  /**
    A beat that replaces an entry: that one reads like it, begins where it did and ends with the batch;
    the others stay.
   */
  lemma ReplacedContents(s: Snapshot, batch: Batch, summary: Summary, recap: bool, norm: string -> string)
    requires Apply(s, batch, summary, recap, norm).Some? && summary.beat != "" && ReplacedIndex(s, summary, norm).Some?
    ensures var r := Apply(s, batch, summary, recap, norm).value;
      var kept := Kept(s, summary);
      var at := ReplacedIndex(s, summary, norm).value;
      && r.history == s.history && |r.recent| == |kept|
      && (forall i :: 0 <= i < |kept| && kept[i] != at ==> r.recent[i] == s.recent[kept[i]])
      && (forall i :: 0 <= i < |kept| && kept[i] == at ==>
            Rewritten(s.recent[at], r.recent[i], batch, summary, recap, ReadsFirst(s, summary, norm, at)))
  {
    RevisionContents(s, batch, summary, recap, norm);
    PlaceMeans(s, summary, norm, ReplacedIndex(s, summary, norm).value);
    hide Revision, Kept, ReplacedIndex;
  }

  /**
    Three neighbouring entries made one: from the first to the last, at the last one's time, with their
    counts added up.
   */
  ghost predicate OneOf(a: Beat, b: Beat, c: Beat, text: string, level: nat, one: Beat) {
    && one.text == text && one.level == Some(level) && one.from == a.from && one.to == c.to && one.at == c.at
    && one.tone == Neutral && one.kind.None? && one.bullets.None?
    && (one.recap <==> a.recap || b.recap || c.recap) && one.omitted == a.omitted + b.omitted + c.omitted
  }

  lemma MergeMeans(items: seq<Beat>, text: string, level: nat)
    requires |items| == 3
    ensures OneOf(items[0], items[1], items[2], text, level, Merge(items, text, level))
  {
    assert items[..2][..1] == items[..1] && items[..1][..0] == [];
    assert TotalOmitted(items[..1]) == items[0].omitted;
    assert TotalOmitted(items[..2]) == TotalOmitted(items[..1]) + items[1].omitted;
  }

  /** A new beat comes last; the kept entries stay in order, but the three oldest are folded away if there are six. */
  lemma AddedContents(s: Snapshot, batch: Batch, summary: Summary, recap: bool, norm: string -> string)
    requires Apply(s, batch, summary, recap, norm).Some? && summary.beat != "" && ReplacedIndex(s, summary, norm).None?
    ensures var r := Apply(s, batch, summary, recap, norm).value;
      var kept := Kept(s, summary);
      var folds := if |kept| < RECENT_LIMIT then 0 else FOLD_SIZE;
      && |r.recent| == |kept| - folds + 1
      && (forall i :: folds <= i < |kept| ==> r.recent[i - folds] == s.recent[kept[i]])
      && (folds == 0 ==> r.history == s.history)
      && r.recent[|kept| - folds] == Beat(None, batch.at, summary.kind, summary.beat, summary.tone,
                                          batch.from, batch.to, recap, batch.omitted, None)
      && (folds > 0 ==>
            && r.history != [] && r.history[..|r.history| - 1] == Compacted(s.history, summary.compact)
            && OneOf(s.recent[kept[0]], s.recent[kept[1]], s.recent[kept[2]], summary.folded, 1,
                     r.history[|r.history| - 1]))
  {
    hide Revision, Kept, ReplacedIndex, Apply;
    AppliedRecent(s, batch, summary, recap, norm);
    RevisionContents(s, batch, summary, recap, norm);
    var revised := Revision(s, batch, summary, recap, norm);
    if |revised| >= RECENT_LIMIT {
      MergeMeans(revised[..FOLD_SIZE], summary.folded, 1);
    }
    hide Compacted, Merge, OneOf;
  }

  lemma AppliedRecent(s: Snapshot, batch: Batch, summary: Summary, recap: bool, norm: string -> string)
    requires Apply(s, batch, summary, recap, norm).Some? && summary.beat != "" && ReplacedIndex(s, summary, norm).None?
    ensures ValidRevision(s, summary)
    ensures var r := Apply(s, batch, summary, recap, norm).value;
      var revised := Revision(s, batch, summary, recap, norm);
      var folds := if |revised| < RECENT_LIMIT then 0 else FOLD_SIZE;
      && r.recent == revised[folds..] + [NewBeat(batch, summary, recap)]
      && r.history == if folds == 0 then s.history
                      else Compacted(s.history, summary.compact) + [Merge(revised[..FOLD_SIZE], summary.folded, 1)]
  {
    hide Revision, ReplacedIndex, Compacted;
  }

  // ---- no entry repeats another ----

  ghost predicate NoRepeats(recent: seq<Beat>, norm: string -> string) {
    forall i, j :: 0 <= i < j < |recent| ==> norm(recent[i].text) != norm(recent[j].text)
  }

  /** No entry that is kept, but for the one at `at`, reads like the beat. */
  ghost predicate Unread(s: Snapshot, summary: Summary, norm: string -> string, at: Option<nat>) {
    forall k :: 0 <= k < |s.recent| && k !in Omitting(summary) && Some(k) != at ==>
      norm(s.recent[k].text) != norm(summary.beat)
  }

  /** A beat that the program itself places never repeats an entry. */
  lemma PlacedUnread(s: Snapshot, summary: Summary, norm: string -> string)
    requires NoRepeats(s.recent, norm) && summary.replaceRecent.None?
    ensures Unread(s, summary, norm, ReplacedIndex(s, summary, norm))
  {
  }

  lemma {:induction false} PlacesAll(n: nat, dropped: set<nat>, k: nat)
    requires k < n && k !in dropped
    ensures k in Places(n, dropped)
  {
    if k < n - 1 {
      PlacesAll(n - 1, dropped, k);
    }
  }

  lemma RepeatsWhenRead(s: Snapshot, batch: Batch, summary: Summary, recap: bool, norm: string -> string, k: nat)
    requires Apply(s, batch, summary, recap, norm).Some? && summary.beat != "" && summary.replaceRecent.Some?
    requires k < |s.recent| && k !in Omitting(summary) && Some(k) != summary.replaceRecent
    requires norm(s.recent[k].text) == norm(summary.beat)
    ensures !NoRepeats(Apply(s, batch, summary, recap, norm).value.recent, norm)
  {
    ReplacedContents(s, batch, summary, recap, norm);
    var r := Apply(s, batch, summary, recap, norm).value;
    var kept := Kept(s, summary);
    var at := summary.replaceRecent.value;
    PlacesAll(|s.recent|, Omitting(summary), k);
    PlacesAll(|s.recent|, Omitting(summary), at);
    var i :| 0 <= i < |kept| && kept[i] == k;
    var j :| 0 <= j < |kept| && kept[j] == at;
    hide Apply, Kept, ReplacedIndex;
    assert norm(r.recent[i].text) == norm(r.recent[j].text);
    if i < j {
      assert !(norm(r.recent[i].text) != norm(r.recent[j].text));
    } else {
      assert !(norm(r.recent[j].text) != norm(r.recent[i].text));
    }
  }

  /**
    From entries that do not repeat each other, a recorded beat leaves such entries exactly when no
    other entry that is kept reads like it. That can only fail when the reply itself chose the entry to replace.
   */
  lemma NoRepeatsExactly(s: Snapshot, batch: Batch, summary: Summary, recap: bool, norm: string -> string)
    requires Apply(s, batch, summary, recap, norm).Some? && summary.beat != "" && NoRepeats(s.recent, norm)
    ensures NoRepeats(Apply(s, batch, summary, recap, norm).value.recent, norm) <==>
      Unread(s, summary, norm, ReplacedIndex(s, summary, norm))
    ensures summary.replaceRecent.None? ==> NoRepeats(Apply(s, batch, summary, recap, norm).value.recent, norm)
  {
    var at := ReplacedIndex(s, summary, norm);
    if summary.replaceRecent.None? {
      PlacedUnread(s, summary, norm);
    }
    if Unread(s, summary, norm, at) {
      UnreadStays(s, batch, summary, recap, norm);
    } else {
      var k :| 0 <= k < |s.recent| && k !in Omitting(summary) && Some(k) != at
               && norm(s.recent[k].text) == norm(summary.beat);
      RepeatsWhenRead(s, batch, summary, recap, norm, k);
    }
  }

  lemma KeptIncreasing(s: Snapshot, summary: Summary)
    ensures var kept := Kept(s, summary);
      && (forall i :: 0 <= i < |kept| ==> kept[i] < |s.recent| && kept[i] !in Omitting(summary))
      && (forall i, j :: 0 <= i < j < |kept| ==> kept[i] < kept[j])
  {
  }

  lemma ReplacedUnread(s: Snapshot, batch: Batch, summary: Summary, recap: bool, norm: string -> string)
    requires Apply(s, batch, summary, recap, norm).Some? && summary.beat != "" && NoRepeats(s.recent, norm)
    requires ReplacedIndex(s, summary, norm).Some? && Unread(s, summary, norm, ReplacedIndex(s, summary, norm))
    ensures NoRepeats(Apply(s, batch, summary, recap, norm).value.recent, norm)
  {
    hide Apply, Kept, ReplacedIndex, Omitting;
    KeptIncreasing(s, summary);
    ReplacedContents(s, batch, summary, recap, norm);
    var recent := Apply(s, batch, summary, recap, norm).value.recent;
    var kept := Kept(s, summary);
    forall i, j | 0 <= i < j < |recent|
      ensures norm(recent[i].text) != norm(recent[j].text)
    {
      assert kept[i] < kept[j];
    }
  }

  lemma AddedUnread(s: Snapshot, batch: Batch, summary: Summary, recap: bool, norm: string -> string)
    requires Apply(s, batch, summary, recap, norm).Some? && summary.beat != "" && NoRepeats(s.recent, norm)
    requires ReplacedIndex(s, summary, norm).None? && Unread(s, summary, norm, None)
    ensures NoRepeats(Apply(s, batch, summary, recap, norm).value.recent, norm)
  {
    hide Apply, Kept, ReplacedIndex, Omitting;
    KeptIncreasing(s, summary);
    AddedContents(s, batch, summary, recap, norm);
    var recent := Apply(s, batch, summary, recap, norm).value.recent;
    var kept := Kept(s, summary);
    var folds := if |kept| < RECENT_LIMIT then 0 else FOLD_SIZE;
    forall i, j | 0 <= i < j < |recent|
      ensures norm(recent[i].text) != norm(recent[j].text)
    {
      assert kept[i + folds] < |s.recent| && recent[i + folds - folds] == s.recent[kept[i + folds]];
      if j < |recent| - 1 {
        assert kept[i + folds] < kept[j + folds] && recent[j + folds - folds] == s.recent[kept[j + folds]];
      }
    }
  }

  lemma UnreadStays(s: Snapshot, batch: Batch, summary: Summary, recap: bool, norm: string -> string)
    requires Apply(s, batch, summary, recap, norm).Some? && summary.beat != "" && NoRepeats(s.recent, norm)
    requires Unread(s, summary, norm, ReplacedIndex(s, summary, norm))
    ensures NoRepeats(Apply(s, batch, summary, recap, norm).value.recent, norm)
  {
    if ReplacedIndex(s, summary, norm).Some? {
      ReplacedUnread(s, batch, summary, recap, norm);
    } else {
      AddedUnread(s, batch, summary, recap, norm);
    }
  }

  // ---- folds get their texts ----

  lemma {:induction false} PlacesFewer(n: nat, dropped: set<nat>, j: nat)
    requires j < n && j in dropped
    ensures |Places(n, dropped)| < n
  {
    if j < n - 1 {
      PlacesFewer(n - 1, dropped, j);
    } else {
      PlacesAtMost(n - 1, dropped);
    }
  }

  lemma {:induction false} PlacesAtMost(n: nat, dropped: set<nat>)
    ensures |Places(n, dropped)| <= n
  {
    if n > 0 {
      PlacesAtMost(n - 1, dropped);
    }
  }

  lemma BlankCleans(s: string, limit: nat)
    requires Trim(s) == ""
    ensures Clean(s, limit) == ""
  {
    BlankSqueezes(s);
  }

  lemma {:induction false} BlankSqueezes(s: string)
    requires Blank(s)
    ensures Squeeze(s) == "" || Squeeze(s) == " "
  {
    if s != "" {
      assert forall i :: 0 <= i < |s[1..]| ==> s[1..][i] == s[i + 1];
      BlankSqueezes(s[1..]);
      assert Gap(s[0]);
    }
  }

  /** A reply that drops, replaces or says nothing leaves room, so whatever is folded away gets a text of its own. */
  lemma FoldsHaveTexts(s: Snapshot, batch: Batch, reply: Reply, recap: bool, norm: string -> string)
    requires |s.recent| <= RECENT_LIMIT
    requires var fold := |s.recent| >= RECENT_LIMIT;
      ParseSummary(reply, fold, fold && CompactionFrom(s.history, 1).Some?).Some?
    ensures var fold := |s.recent| >= RECENT_LIMIT;
      var summary := ParseSummary(reply, fold, fold && CompactionFrom(s.history, 1).Some?).value;
      var r := Apply(s, batch, summary, recap, norm);
      r.Some? && r.value.history != s.history ==>
        fold && summary.folded != "" && (CompactionFrom(s.history, 1).Some? ==> summary.compact != "")
  {
    hide Clean, MinimapFocus.ParseFocus, TopicsText, Trim, Revise, DuplicateOf, Compacted, CompactionFrom, Places,
      NowOf, Tidy;
    var fold := |s.recent| >= RECENT_LIMIT;
    var compact := fold && CompactionFrom(s.history, 1).Some?;
    var summary := ParseSummary(reply, fold, compact).value;
    var r := Apply(s, batch, summary, recap, norm);
    if r.Some? && r.value.history != s.history {
      RevisionContents(s, batch, summary, recap, norm);
      PlacesAtMost(|s.recent|, Omitting(summary));
      if reply.dropRecent.Some? && reply.dropRecent.value != [] {
        assert summary.dropRecent[0] in Omitting(summary);
        PlacesFewer(|s.recent|, Omitting(summary), summary.dropRecent[0]);
      }
      if Trim(reply.beat) == "" {
        BlankCleans(reply.beat, MAX_SUMMARY_TEXT);
      }
      ParsedIsClean(reply, fold, compact);
    }
  }
}
