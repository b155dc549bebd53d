/** The minimap's bounded record of a session: recent beats, and history compacted in four levels. */
module Minimap {
  import opened Prelude

  datatype Tone = Neutral | Success | Warning | Error

  /** A missing `omitted` is 0 and a missing `recap` is false; only history entries carry a level. */
  datatype Beat = Beat(
    level: Option<nat>,
    at: Option<int>,
    kind: Option<string>,
    text: string,
    tone: Tone,
    from: string,
    to: string,
    recap: bool,
    omitted: nat,
    bullets: Option<seq<string>>)
  {
    function Level(): nat { if level.Some? then level.value else 1 }
  }

  datatype Topic = Topic(topic: string, subtopics: seq<string>)

  datatype Batch = Batch(at: Option<int>, from: string, to: string, omitted: nat, events: seq<string>)

  /** A parsed reply of the summarising model. */
  datatype Summary = Summary(
    focus: Option<seq<Topic>>,
    dropRecent: seq<nat>,
    kind: Option<string>,
    replaceRecent: Option<nat>,
    beat: string,
    tone: Tone,
    now: string,
    folded: string,
    compact: string)

  datatype Snapshot = Snapshot(lastId: string, history: seq<Beat>, recent: seq<Beat>, now: string,
                               focus: Option<seq<Topic>>)

  const EMPTY_SNAPSHOT := Snapshot("", [], [], "", None)

  const RECENT_LIMIT: nat := 6
  const HISTORY_LEVELS: nat := 4
  const HISTORY_PER_LEVEL: nat := 6
  const HISTORY_LIMIT: nat := HISTORY_LEVELS * HISTORY_PER_LEVEL
  const FOLD_SIZE: nat := 3
  const MAX_SUMMARY_TEXT: nat := 4096
  const HISTORY_TEXT: nat := MAX_SUMMARY_TEXT * 3 + 2
  const NOW_TEXT: nat := 180

  // ---- compaction ----

  /** The positions of one level, in order. */
  function LevelIndices(history: seq<Beat>, level: nat): (r: seq<nat>)
    ensures forall k :: 0 <= k < |r| ==> r[k] < |history| && history[r[k]].Level() == level
    ensures forall i, j :: 0 <= i < j < |r| ==> r[i] < r[j]
    ensures |r| == Count(history, level)
  {
    if history == [] then []
    else
      var n := |history| - 1;
      LevelIndices(history[..n], level) + (if history[n].Level() == level then [n] else [])
  }

  function Count(history: seq<Beat>, level: nat): nat {
    if history == [] then 0
    else Count(history[..|history| - 1], level) + (if history[|history| - 1].Level() == level then 1 else 0)
  }

  datatype Compaction = Compaction(indices: seq<nat>, level: nat)

  function CompactionFrom(history: seq<Beat>, level: nat): (r: Option<Compaction>)
    ensures r.Some? ==> |r.value.indices| == FOLD_SIZE
    ensures r.Some? ==> forall i :: 0 <= i < FOLD_SIZE ==> r.value.indices[i] < |history|
    decreases HISTORY_LEVELS + 1 - level
  {
    if level > HISTORY_LEVELS then None
    else
      var indices := LevelIndices(history, level);
      if |indices| >= HISTORY_PER_LEVEL then
        Some(Compaction(indices[..FOLD_SIZE], if level < HISTORY_LEVELS then level + 1 else HISTORY_LEVELS))
      else CompactionFrom(history, level + 1)
  }

  /** The lowest level that is full: its oldest three entries are to become one of the next level. */
  method HistoryCompaction(history: seq<Beat>) returns (r: Option<Compaction>)
    ensures r == CompactionFrom(history, 1)
  {
    var level := 1;
    while level <= HISTORY_LEVELS
      invariant 1 <= level <= HISTORY_LEVELS + 1
      invariant CompactionFrom(history, 1) == CompactionFrom(history, level)
      decreases HISTORY_LEVELS + 1 - level
    {
      var indices := LevelIndices(history, level);
      if |indices| >= HISTORY_PER_LEVEL {
        return Some(Compaction(indices[..FOLD_SIZE], if level < HISTORY_LEVELS then level + 1 else HISTORY_LEVELS));
      }
      level := level + 1;
    }
    r := None;
  }

  function TotalOmitted(items: seq<Beat>): nat {
    if items == [] then 0 else TotalOmitted(items[..|items| - 1]) + items[|items| - 1].omitted
  }

  function Merge(items: seq<Beat>, text: string, level: nat): Beat
    requires items != []
  {
    var last := items[|items| - 1];
    Beat(Some(level), last.at, None, text, Neutral, items[0].from, last.to,
         exists i :: 0 <= i < |items| && items[i].recap, TotalOmitted(items), None)
  }

  /** Put `combined` in the place of the first index and leave the other indices out. */
  function Combine(history: seq<Beat>, indices: seq<nat>, combined: Beat): seq<Beat>
    requires indices != []
  {
    if history == [] then []
    else
      var n := |history| - 1;
      Combine(history[..n], indices, combined) +
      (if n == indices[0] then [combined] else if n in indices then [] else [history[n]])
  }

  function Compacted(history: seq<Beat>, text: string): seq<Beat> {
    var c := CompactionFrom(history, 1);
    if c.None? then history
    else
      var items := seq(FOLD_SIZE, i requires 0 <= i < FOLD_SIZE => history[c.value.indices[i]]);
      Combine(history, c.value.indices, Merge(items, text, c.value.level))
  }

  /** Which level is compacted: the lowest full one. None is when none is full. */
  lemma {:induction false} CompactedLevel(history: seq<Beat>, from: nat) returns (l: nat)
    requires 1 <= from <= HISTORY_LEVELS + 1
    ensures from <= l <= HISTORY_LEVELS + 1 && NoneFull(history, from, l)
    ensures CompactionFrom(history, from).None? ==> l == HISTORY_LEVELS + 1
    ensures CompactionFrom(history, from).Some? ==>
      l <= HISTORY_LEVELS && Compacts(history, CompactionFrom(history, from).value, l)
    decreases HISTORY_LEVELS + 1 - from
  {
    l := from;
    if from <= HISTORY_LEVELS && Count(history, from) < HISTORY_PER_LEVEL {
      assert CompactionFrom(history, from) == CompactionFrom(history, from + 1);
      l := CompactedLevel(history, from + 1);
    } else if from <= HISTORY_LEVELS {
      assert Compacts(history, CompactionFrom(history, from).value, from);
    }
  }

  ghost predicate NoneFull(history: seq<Beat>, from: nat, upto: nat) {
    forall l :: from <= l < upto ==> Count(history, l) < HISTORY_PER_LEVEL
  }

  /** c takes the first entries of the full level l. */
  predicate Compacts(history: seq<Beat>, c: Compaction, l: nat) {
    && Count(history, l) >= HISTORY_PER_LEVEL
    && c.indices == LevelIndices(history, l)[..FOLD_SIZE]
    && c.level == if l < HISTORY_LEVELS then l + 1 else HISTORY_LEVELS
  }

  // ---- applying a summary ----

  function Omitting(s: Summary): set<nat> {
    set i | i in s.dropRecent
  }

  /** The revision names entries that are there, and does not both drop and replace one. */
  predicate ValidRevision(s: Snapshot, summary: Summary) {
    && (forall i :: i in Omitting(summary) ==> i < |s.recent|)
    && (summary.replaceRecent.Some? ==>
          summary.replaceRecent.value < |s.recent| && summary.replaceRecent.value !in Omitting(summary))
  }

  /** The first kept entry whose normalised text is that of the new beat. */
  function DuplicateOf(recent: seq<Beat>, summary: Summary, norm: string -> string, from: nat := 0): (r: Option<nat>)
    requires from <= |recent|
    ensures r.Some? ==>
      from <= r.value < |recent| && r.value !in Omitting(summary) && norm(recent[r.value].text) == norm(summary.beat)
    ensures forall i :: from <= i < (if r.Some? then r.value else |recent|) && i !in Omitting(summary) ==>
      norm(recent[i].text) != norm(summary.beat)
    decreases |recent| - from
  {
    if from == |recent| then None
    else if from !in Omitting(summary) && norm(recent[from].text) == norm(summary.beat) then Some(from)
    else DuplicateOf(recent, summary, norm, from + 1)
  }

  function ReplacedIndex(s: Snapshot, summary: Summary, norm: string -> string): Option<nat> {
    if summary.replaceRecent.Some? then summary.replaceRecent else DuplicateOf(s.recent, summary, norm)
  }

  function RevisedItem(item: Beat, batch: Batch, summary: Summary, recap: bool, duplicate: bool): Beat {
    item.(text := summary.beat, tone := summary.tone, to := batch.to,
          kind := if summary.kind.Some? then summary.kind else item.kind,
          at := if duplicate then item.at else batch.at,
          recap := item.recap || recap,
          omitted := item.omitted + batch.omitted)
  }

  /** Drop and revise the entries from position i on. */
  function Revise(recent: seq<Beat>, i: nat, drops: set<nat>, replace: Option<nat>, item: Option<Beat>): seq<Beat>
    requires i <= |recent|
    decreases |recent| - i
  {
    if i == |recent| then []
    else
      (if i in drops then []
       else if Some(i) == replace && item.Some? then [item.value]
       else [recent[i]]) + Revise(recent, i + 1, drops, replace, item)
  }

  function Revision(s: Snapshot, batch: Batch, summary: Summary, recap: bool, norm: string -> string): seq<Beat>
    requires ValidRevision(s, summary)
  {
    var replace := ReplacedIndex(s, summary, norm);
    var item :=
      if replace.Some? && summary.beat != "" then
        var duplicate := DuplicateOf(s.recent, summary, norm) == replace;
        Some(RevisedItem(s.recent[replace.value], batch, summary, recap, duplicate))
      else None;
    Revise(s.recent, 0, Omitting(summary), replace, item)
  }

  function Folded(s: Snapshot, summary: Summary): Snapshot {
    if |s.recent| < RECENT_LIMIT then s
    else s.(history := Compacted(s.history, summary.compact) + [Merge(s.recent[..FOLD_SIZE], summary.folded, 1)],
            recent := s.recent[FOLD_SIZE..])
  }

  function NewBeat(batch: Batch, summary: Summary, recap: bool): Beat {
    Beat(None, batch.at, summary.kind, summary.beat, summary.tone, batch.from, batch.to, recap, batch.omitted, None)
  }

  /** The snapshot after a summary, or none when the revision is invalid. */
  function Apply(s: Snapshot, batch: Batch, summary: Summary, recap: bool, norm: string -> string): Option<Snapshot> {
    if !ValidRevision(s, summary) then None
    else
      var revision := Revision(s, batch, summary, recap, norm);
      var revised := Snapshot(batch.to, s.history, revision, summary.now, summary.focus);
      if summary.beat == "" || ReplacedIndex(s, summary, norm).Some? then Some(revised)
      else
        var folded := Folded(revised, summary);
        Some(folded.(recent := folded.recent + [NewBeat(batch, summary, recap)]))
  }

  // ---- reading a batch ----

  datatype Message = Message(id: string, at: Option<int>)

  /** One past the position of an id in the stream; 0 when it is not there or is the empty id. */
  function Position(messages: seq<Message>, id: string): (r: nat)
    ensures r <= |messages|
    ensures r > 0 ==> messages[r - 1].id == id
  {
    if messages == [] then 0
    else if messages[0].id == id then 1
    else
      var rest := Position(messages[1..], id);
      if rest == 0 then 0 else rest + 1
  }

  function Ids(messages: seq<Message>): (r: seq<string>)
    ensures |r| == |messages| && forall i :: 0 <= i < |r| ==> r[i] == messages[i].id
  {
    seq(|messages|, i requires 0 <= i < |messages| => messages[i].id)
  }

  /** All unread messages when they are few, else the first two and the latest. */
  function Sampled(unread: seq<Message>, count: nat): seq<Message>
    requires count > 2
  {
    if |unread| <= count then unread else unread[..2] + unread[|unread| - (count - 2)..]
  }

  /** A time that can be one. */
  function Timestamp(at: Option<int>): Option<int> {
    if at.Some? && at.value > 0 then at else None
  }

  /** The messages after lastId: all of them when few, else the first two and the latest. */
  function ReadBatch(messages: seq<Message>, lastId: string, recap: bool): Option<Batch> {
    var unread := messages[if lastId == "" then 0 else Position(messages, lastId)..];
    if unread == [] then None
    else
      var selected := Sampled(unread, if recap then 12 else 8);
      var last := unread[|unread| - 1];
      Some(Batch(Timestamp(last.at), unread[0].id, last.id, |unread| - |selected|, Ids(selected)))
  }
}
