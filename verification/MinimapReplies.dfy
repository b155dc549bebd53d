/** Replies of the summarising model: how they are checked and cleaned, and that what is recorded stays so. */
module MinimapReplies {
  import opened Prelude
  import opened Minimap
  import opened MinimapTexts
  import opened MinimapFocus

  // ---- replies ----

  const EVENT_KINDS: set<string> := {"ask", "decision", "change", "check", "blocker", "note"}

  /** A decoded reply of the summarising model, before anything about it is checked. */
  datatype Reply = Reply(
    focus: Option<seq<Topic>>, dropRecent: Option<seq<int>>, replaceRecent: Option<int>, kind: Option<string>,
    beat: string, tone: Tone, now: Option<string>, folded: Option<string>, compact: Option<string>)

  function KindOf(kind: Option<string>): Option<string> {
    if kind.Some? && kind.value in EVENT_KINDS then kind else None
  }

  /** The names of the topics, as a headline. */
  function TopicsText(topics: seq<Topic>): string {
    if topics == [] then ""
    else if |topics| == 1 then topics[0].topic
    else topics[0].topic + "; " + TopicsText(topics[1..])
  }

  function NowOf(reply: Reply): string {
    var focus := ParseFocus(reply.focus);
    if Present(reply.now) then Clean(reply.now.value, NOW_TEXT) else if focus.Some? then TopicsText(focus.value) else ""
  }

  /** At most six positions from 0 to 5, none twice. */
  predicate Indices(s: seq<int>) {
    |s| <= 6 && (forall i :: 0 <= i < |s| ==> 0 <= s[i] < 6) && Distinct(s)
  }

  predicate TooLong(text: Option<string>) {
    text.Some? && |text.value| > MAX_SUMMARY_TEXT
  }

  /** A text that is there, cleaned, or the empty one. */
  function TextOf(text: Option<string>): string {
    if text.Some? then Clean(text.value, MAX_SUMMARY_TEXT) else ""
  }

  /** The reply adds a beat, and neither drops nor replaces an entry. */
  predicate OnlyAdds(reply: Reply) {
    reply.replaceRecent.None? && (reply.dropRecent.None? || reply.dropRecent.value == []) && Trim(reply.beat) != ""
  }

  function Positions(s: seq<int>): (r: seq<nat>)
    requires forall i :: 0 <= i < |s| ==> s[i] >= 0
    ensures |r| == |s| && forall i :: 0 <= i < |r| ==> r[i] == s[i]
  {
    seq(|s|, i requires 0 <= i < |s| => s[i] as nat)
  }

  /** The summary a reply stands for, if it is one; `fold` and `compact` say which texts were asked for. */
  function ParseSummary(reply: Reply, fold: bool, compact: bool): Option<Summary> {
    if |reply.beat| > MAX_SUMMARY_TEXT || TooLong(reply.folded) || TooLong(reply.compact)
       || (!Present(reply.now) && ParseFocus(reply.focus).None?)
       || (reply.dropRecent.Some? && !Indices(reply.dropRecent.value))
       || (reply.replaceRecent.Some? && !(0 <= reply.replaceRecent.value <= 5))
       || (fold && OnlyAdds(reply) && TextOf(reply.folded) == "")
       || (compact && OnlyAdds(reply) && TextOf(reply.compact) == "")
    then None
    else
      var drops := if reply.dropRecent.Some? then reply.dropRecent.value else [];
      Some(Summary(
        ParseFocus(reply.focus), Positions(drops), KindOf(reply.kind),
        if reply.replaceRecent.Some? then Some(reply.replaceRecent.value as nat) else None,
        Clean(reply.beat, MAX_SUMMARY_TEXT), reply.tone, NowOf(reply), TextOf(reply.folded), TextOf(reply.compact)))
  }

  // ---- what is recorded stays clean ----

  ghost predicate CleanSummary(s: Summary) {
    && Text(s.beat, MAX_SUMMARY_TEXT) && Text(s.folded, MAX_SUMMARY_TEXT) && Text(s.compact, MAX_SUMMARY_TEXT)
    && Text(s.now, NOW_TEXT) && KindOf(s.kind) == s.kind && (s.focus.Some? ==> FocusFits(s.focus.value))
  }

  function LevelOf(level: Option<nat>): Option<nat> {
    if level.Some? && 1 <= level.value <= HISTORY_LEVELS then level else None
  }

  /** An entry with a text within its limit, tidy if asked, and with a real time, kind and level. */
  ghost predicate FitBeat(b: Beat, limit: nat, tidy: bool) {
    && |b.text| <= limit && (tidy ==> Tidy(b.text)) && b.bullets.None?
    && Timestamp(b.at) == b.at && KindOf(b.kind) == b.kind && LevelOf(b.level) == b.level
  }

  ghost predicate FitBeats(beats: seq<Beat>, limit: nat, tidy: bool) {
    forall b :: b in beats ==> FitBeat(b, limit, tidy)
  }

  /** Every text is within its limit and tidy, but for those of the history unless asked. */
  ghost predicate FitRecord(s: Snapshot, tidy: bool) {
    && FitBeats(s.recent, MAX_SUMMARY_TEXT, true) && FitBeats(s.history, HISTORY_TEXT, tidy) && Text(s.now, NOW_TEXT)
    && (s.focus.Some? ==> FocusFits(s.focus.value))
  }

  lemma TidyFits(s: Snapshot)
    requires FitRecord(s, true)
    ensures FitRecord(s, false)
  {
    hide FocusFits, Tidy;
  }

  lemma HeadlineTidy(topics: seq<Topic>)
    requires FocusFits(topics)
    ensures Text(TopicsText(topics), NOW_TEXT)
  {
    hide Tidy, Shared;
    if |topics| == 2 {
      assert topics[1..] == [topics[1]];
      assert TopicsText(topics) == topics[0].topic + "; " + topics[1].topic;
      TidyJoined(topics[0].topic, topics[1].topic);
    }
  }

  lemma TidyJoined(a: string, b: string)
    requires Tidy(a) && Tidy(b)
    ensures Tidy(a + "; " + b)
  {
    var t := a + "; " + b;
    assert t[|a|] == ';' && t[|a| + 1] == ' ';
    hide IsSpace;
    assert !Gap(';') by {
      Semicolon();
    }
  }

  lemma Semicolon()
    ensures !Gap(';')
  {
  }

  /** Whatever a reply holds, the summary it stands for is clean; a fold that only adds gets its texts. */
  lemma ParsedIsClean(reply: Reply, fold: bool, compact: bool)
    requires ParseSummary(reply, fold, compact).Some?
    ensures var s := ParseSummary(reply, fold, compact).value;
      && CleanSummary(s)
      && (OnlyAdds(reply) ==> (fold ==> s.folded != "") && (compact ==> s.compact != ""))
  {
    hide Clean, ParseFocus, FocusFits, TopicsText, Tidy, Trim;
    CleanTidies(reply.beat, MAX_SUMMARY_TEXT);
    TextIsTidy(reply.folded);
    TextIsTidy(reply.compact);
    if Present(reply.now) {
      CleanTidies(reply.now.value, NOW_TEXT);
    }
    if ParseFocus(reply.focus).Some? {
      ParsedFits(reply.focus);
      HeadlineTidy(ParseFocus(reply.focus).value);
    }
  }

  lemma TextIsTidy(text: Option<string>)
    ensures Text(TextOf(text), MAX_SUMMARY_TEXT)
  {
    if text.Some? {
      CleanTidies(text.value, MAX_SUMMARY_TEXT);
    }
    hide Clean;
  }

  lemma {:induction false} ReviseMembers(recent: seq<Beat>, i: nat, drops: set<nat>, replace: Option<nat>,
                                         item: Option<Beat>)
    requires i <= |recent|
    ensures forall b :: b in Revise(recent, i, drops, replace, item) ==> b in recent || Some(b) == item
    decreases |recent| - i
  {
    if i < |recent| {
      ReviseMembers(recent, i + 1, drops, replace, item);
    }
  }

  lemma {:induction false} CombineMembers(history: seq<Beat>, indices: seq<nat>, combined: Beat)
    requires indices != []
    ensures forall b :: b in Combine(history, indices, combined) ==> b in history || b == combined
  {
    if history != [] {
      CombineMembers(history[..|history| - 1], indices, combined);
    }
  }

  lemma MergeFits(items: seq<Beat>, text: string, level: nat, tidy: bool)
    requires items != [] && 1 <= level <= HISTORY_LEVELS && Text(text, MAX_SUMMARY_TEXT)
    requires FitBeat(items[|items| - 1], HISTORY_TEXT, tidy)
    ensures FitBeat(Merge(items, text, level), HISTORY_TEXT, tidy)
  {
  }

  lemma LongerLimit(beats: seq<Beat>, tidy: bool)
    requires FitBeats(beats, MAX_SUMMARY_TEXT, true)
    ensures FitBeats(beats, HISTORY_TEXT, tidy)
  {
  }

  lemma CompactedFits(history: seq<Beat>, text: string, tidy: bool)
    requires FitBeats(history, HISTORY_TEXT, tidy) && Text(text, MAX_SUMMARY_TEXT)
    ensures FitBeats(Compacted(history, text), HISTORY_TEXT, tidy)
  {
    hide FitBeat, Text;
    var c := CompactionFrom(history, 1);
    if c.Some? {
      var items := seq(FOLD_SIZE, i requires 0 <= i < FOLD_SIZE => history[c.value.indices[i]]);
      assert items[FOLD_SIZE - 1] in history;
      var l := CompactedLevel(history, 1);
      MergeFits(items, text, c.value.level, tidy);
      CombineMembers(history, c.value.indices, Merge(items, text, c.value.level));
    }
  }

  lemma FoldedFits(s: Snapshot, summary: Summary, tidy: bool)
    requires FitRecord(s, tidy) && CleanSummary(summary)
    ensures FitRecord(Folded(s, summary), tidy)
  {
    hide FitBeat, Text, Compacted, FocusFits;
    if |s.recent| >= RECENT_LIMIT {
      CompactedFits(s.history, summary.compact, tidy);
      LongerLimit(s.recent, tidy);
      var items := s.recent[..FOLD_SIZE];
      assert items[FOLD_SIZE - 1] in s.recent;
      MergeFits(items, summary.folded, 1, tidy);
    }
  }

  lemma RevisionFits(s: Snapshot, batch: Batch, summary: Summary, recap: bool, norm: string -> string)
    requires FitBeats(s.recent, MAX_SUMMARY_TEXT, true) && CleanSummary(summary)
    requires Timestamp(batch.at) == batch.at && ValidRevision(s, summary)
    ensures FitBeats(Revision(s, batch, summary, recap, norm), MAX_SUMMARY_TEXT, true)
  {
    hide DuplicateOf, Tidy, FocusFits;
    var replace := ReplacedIndex(s, summary, norm);
    if replace.Some? && summary.beat != "" {
      var duplicate := DuplicateOf(s.recent, summary, norm) == replace;
      var item := RevisedItem(s.recent[replace.value], batch, summary, recap, duplicate);
      assert s.recent[replace.value] in s.recent;
      ReviseMembers(s.recent, 0, Omitting(summary), replace, Some(item));
    } else {
      ReviseMembers(s.recent, 0, Omitting(summary), replace, None);
    }
  }

  /** Applying a clean summary leaves a record within its limits, and a tidy one tidy. */
  lemma ApplyFits(s: Snapshot, batch: Batch, summary: Summary, recap: bool, norm: string -> string, tidy: bool)
    requires FitRecord(s, tidy) && CleanSummary(summary) && Timestamp(batch.at) == batch.at
    requires Apply(s, batch, summary, recap, norm).Some?
    ensures FitRecord(Apply(s, batch, summary, recap, norm).value, tidy)
  {
    RevisionFits(s, batch, summary, recap, norm);
    hide Text, FitBeat, ReplacedIndex, Revision, Compacted, DuplicateOf, FocusFits;
    var revised := Snapshot(batch.to, s.history, Revision(s, batch, summary, recap, norm), summary.now, summary.focus);
    FoldedFits(revised, summary, tidy);
    NewBeatFits(batch, summary, recap);
  }

  lemma NewBeatFits(batch: Batch, summary: Summary, recap: bool)
    requires CleanSummary(summary) && Timestamp(batch.at) == batch.at
    ensures FitBeat(NewBeat(batch, summary, recap), MAX_SUMMARY_TEXT, true)
  {
    hide FocusFits;
  }
}
