/** Reading the message stream and reading back a saved record. */
module MinimapRestore {
  import opened Prelude
  import opened Minimap
  import opened MinimapInvariant
  import opened MinimapTexts
  import opened MinimapFocus
  import opened MinimapReplies

  datatype Usage = Usage(
    requests: int, input: int, output: int, cacheRead: int, cacheWrite: int,
    cost: real, unknownCost: int, unknownTokens: int)

  const EMPTY_USAGE := Usage(0, 0, 0, 0, 0, 0.0, 0, 0)

  // ---- the message stream ----

  /** Messages have ids, none of them empty, and no two the same. */
  ghost predicate Stream(messages: seq<Message>) {
    && (forall i :: 0 <= i < |messages| ==> messages[i].id != "")
    && (forall i, j :: 0 <= i < j < |messages| ==> messages[i].id != messages[j].id)
  }

  lemma {:induction false} PositionOf(messages: seq<Message>, i: nat)
    requires Stream(messages) && i < |messages|
    ensures Position(messages, messages[i].id) == i + 1
  {
    if i > 0 {
      PositionOf(messages[1..], i - 1);
    }
  }

  lemma {:induction false} PositionAppended(messages: seq<Message>, more: seq<Message>, id: string)
    requires Position(messages, id) > 0
    ensures Position(messages + more, id) == Position(messages, id)
  {
    if messages[0].id != id {
      assert (messages + more)[1..] == messages[1..] + more;
      PositionAppended(messages[1..], more, id);
    }
  }

  lemma PlacedAppended(all: seq<Beat>, messages: seq<Message>, more: seq<Message>, last: nat)
    requires Placed(all, messages, last)
    ensures Placed(all, messages + more, last)
  {
    forall i | 0 <= i < |all|
      ensures Position(messages + more, all[i].from) == Position(messages, all[i].from)
      ensures Position(messages + more, all[i].to) == Position(messages, all[i].to)
    {
      assert SpanIn(all[i], messages, last);
      PositionAppended(messages, more, all[i].from);
      PositionAppended(messages, more, all[i].to);
    }
    forall i | 0 <= i < |all| ensures SpanIn(all[i], messages + more, last) {
      assert SpanIn(all[i], messages, last);
    }
    forall i, j | 0 <= i < j < |all| ensures Before(all[i], all[j], messages + more) {
      assert Before(all[i], all[j], messages);
    }
  }

  /** Where reading has got to: one past the position of the last id read. */
  function Cursor(messages: seq<Message>, lastId: string): nat {
    if lastId == "" then 0 else Position(messages, lastId)
  }

  /** A batch covers exactly the messages from position `start` up to `end`. */
  ghost predicate Covers(b: Batch, messages: seq<Message>, start: nat, end: nat) {
    && start < end && Position(messages, b.from) == start + 1 && Position(messages, b.to) == end
    && |b.events| + b.omitted == end - start
  }

  /**
    A batch covers everything unread, and there is none exactly when nothing is unread. When the last
    id read is no longer in the stream, all of it is unread.
   */
  lemma ReadBatchCovers(messages: seq<Message>, lastId: string, recap: bool)
    requires Stream(messages)
    ensures ReadBatch(messages, lastId, recap).None? <==> Cursor(messages, lastId) == |messages|
    ensures ReadBatch(messages, lastId, recap).Some? ==>
      Covers(ReadBatch(messages, lastId, recap).value, messages, Cursor(messages, lastId), |messages|)
  {
    var at := Cursor(messages, lastId);
    if at < |messages| {
      PositionOf(messages, at);
      PositionOf(messages, |messages| - 1);
      assert messages[at..][|messages| - at - 1] == messages[|messages| - 1];
    }
  }

  /** Its events are the unread ids in order: all of them, or the first two and the latest when there are too many. */
  lemma SampledIds(unread: seq<Message>, count: nat)
    requires count > 2
    ensures Ids(Sampled(unread, count)) ==
      if |unread| <= count then Ids(unread) else Ids(unread)[..2] + Ids(unread)[|unread| - (count - 2)..]
  {
    if |unread| > count {
      var a, b := unread[..2], unread[|unread| - (count - 2)..];
      assert Ids(a) == Ids(unread)[..2];
      assert Ids(b) == Ids(unread)[|unread| - (count - 2)..];
      assert Ids(a + b) == Ids(a) + Ids(b);
    }
  }

  // ---- saved records ----

  datatype Saved =
    | V1(lastId: string, earlier: Option<Beat>, chapters: seq<Beat>, recent: seq<Beat>,
         now: string, focus: Option<seq<Topic>>, usage: Usage)
    | V2(snapshot: Snapshot, usage: Usage)

  /** At most three, none of them too long. */
  predicate AcceptsBullets(bullets: Option<seq<string>>) {
    bullets.Some? ==>
      |bullets.value| <= 3 && forall i :: 0 <= i < |bullets.value| ==> |bullets.value[i]| <= MAX_SUMMARY_TEXT
  }

  /** An entry whose texts are not too long and whose messages are on the branch. */
  predicate AcceptsBeat(b: Beat, ids: set<string>, limit: nat) {
    |b.text| <= limit && AcceptsBullets(b.bullets) && b.from in ids && b.to in ids
  }

  predicate AcceptsBeats(items: seq<Beat>, ids: set<string>, limit: nat) {
    forall i :: 0 <= i < |items| ==> AcceptsBeat(items[i], ids, limit)
  }

  predicate AcceptsUsage(u: Usage) {
    && u.requests >= 0 && u.input >= 0 && u.output >= 0 && u.cacheRead >= 0 && u.cacheWrite >= 0
    && u.cost >= 0.0 && 0 <= u.unknownCost <= u.requests && 0 <= u.unknownTokens <= u.requests
  }

  /** Every entry has a level from 1 to 4, and levels never increase. */
  predicate AcceptsHistory(history: seq<Beat>) {
    && |history| <= HISTORY_LIMIT
    && (forall i :: 0 <= i < |history| ==> history[i].level.Some? && 1 <= history[i].level.value <= HISTORY_LEVELS)
    && (forall i :: 0 < i < |history| ==> history[i].Level() <= history[i - 1].Level())
  }

  /** An entry as it is read back: cleaned again, and without a time, kind or level that is none. */
  function CopyBeat(b: Beat): Beat {
    b.(text := Clean(b.text, HISTORY_TEXT), level := LevelOf(b.level), at := Timestamp(b.at), kind := KindOf(b.kind),
       bullets := None)
  }

  function CopyBeats(items: seq<Beat>): (r: seq<Beat>)
    ensures |r| == |items| && forall i :: 0 <= i < |r| ==> r[i] == CopyBeat(items[i])
  {
    seq(|items|, i requires 0 <= i < |items| => CopyBeat(items[i]))
  }

  /** Copies under one level. */
  function AtLevel(items: seq<Beat>, level: nat): (r: seq<Beat>)
    ensures |r| == |items| && forall i :: 0 <= i < |r| ==> r[i] == CopyBeat(items[i]).(level := Some(level))
  {
    seq(|items|, i requires 0 <= i < |items| => CopyBeat(items[i]).(level := Some(level)))
  }

  function CleanBullets(bullets: seq<string>): (r: seq<string>)
    ensures |r| == |bullets| && forall i :: 0 <= i < |r| ==> r[i] == Clean(bullets[i], MAX_SUMMARY_TEXT)
  {
    seq(|bullets|, i requires 0 <= i < |bullets| => Clean(bullets[i], MAX_SUMMARY_TEXT))
  }

  /** The text of a version 1 opening: its bullets in a row, each cleaned, or else its own text. */
  function OpeningText(b: Beat): string {
    var row := if b.bullets.Some? then Joined(CleanBullets(b.bullets.value)) else "";
    if row != "" then row else Clean(b.text, HISTORY_TEXT)
  }

  function OpeningOf(earlier: Option<Beat>): seq<Beat> {
    if earlier.None? then []
    else [CopyBeat(earlier.value).(text := OpeningText(earlier.value), level := Some(HISTORY_LEVELS))]
  }

  /** What both versions have to fulfil. */
  predicate AcceptsCommon(lastId: string, recent: seq<Beat>, now: string, usage: Usage, ids: set<string>) {
    && (lastId == "" || lastId in ids) && |now| <= NOW_TEXT && AcceptsUsage(usage)
    && |recent| <= RECENT_LIMIT && AcceptsBeats(recent, ids, MAX_SUMMARY_TEXT)
  }

  /** A record as it is read back from itself. */
  function Reread(s: Snapshot): Snapshot {
    Snapshot(s.lastId, CopyBeats(s.history), CopyBeats(s.recent), Clean(s.now, NOW_TEXT), ParseFocus(s.focus))
  }

  function RestoreOne(saved: Saved, ids: set<string>): Option<Snapshot> {
    match saved
    case V1(lastId, earlier, chapters, recent, now, focus, usage) =>
      if !AcceptsCommon(lastId, recent, now, usage, ids)
         || (earlier.Some? && !AcceptsBeat(earlier.value, ids, HISTORY_TEXT))
         || |chapters| > 2 || !AcceptsBeats(chapters, ids, MAX_SUMMARY_TEXT)
      then None
      else
        Some(Snapshot(lastId, OpeningOf(earlier) + AtLevel(chapters, 1), CopyBeats(recent), Clean(now, NOW_TEXT),
                      ParseFocus(focus)))
    case V2(s, usage) =>
      if !AcceptsCommon(s.lastId, s.recent, s.now, usage, ids)
         || !AcceptsHistory(s.history) || !AcceptsBeats(s.history, ids, HISTORY_TEXT)
      then None
      else Some(Reread(s))
  }

  /** The latest saved record on the branch that is accepted, or the empty one. */
  function Restore(branch: seq<Saved>, ids: set<string>): Snapshot {
    if branch == [] then EMPTY_SNAPSHOT
    else
      var last := RestoreOne(branch[|branch| - 1], ids);
      if last.Some? then last.value else Restore(branch[..|branch| - 1], ids)
  }

  /** Restoring as it runs: the branch is read from its end. */
  method RestoreBranch(branch: seq<Saved>, ids: set<string>) returns (s: Snapshot)
    ensures s == Restore(branch, ids)
  {
    hide RestoreOne;
    var i := |branch|;
    assert branch[..i] == branch;
    while i > 0
      invariant 0 <= i <= |branch| && Restore(branch[..i], ids) == Restore(branch, ids)
    {
      i := i - 1;
      assert branch[..i + 1][..i] == branch[..i];
      var restored := RestoreOne(branch[i], ids);
      if restored.Some? {
        return restored.value;
      }
    }
    return EMPTY_SNAPSHOT;
  }

  lemma {:induction false} StepwiseNonIncreasing(h: seq<Beat>)
    requires forall i :: 0 < i < |h| ==> h[i].Level() <= h[i - 1].Level()
    ensures NonIncreasing(h)
  {
    if h != [] {
      var init := h[..|h| - 1];
      StepwiseNonIncreasing(init);
      forall i, j | 0 <= i < j < |h| ensures h[i].Level() >= h[j].Level() {
        if j == |h| - 1 && i < j - 1 {
          assert init[i].Level() >= init[j - 1].Level();
        }
      }
    }
  }

  lemma CopyFits(b: Beat, limit: nat)
    requires |b.text| <= limit
    ensures FitBeat(CopyBeat(b), limit, true)
    ensures forall level: nat :: 1 <= level <= HISTORY_LEVELS ==>
      FitBeat(CopyBeat(b).(level := Some(level)), limit, true)
  {
    CleanTidies(b.text, HISTORY_TEXT);
    CleanShortens(b.text, HISTORY_TEXT);
    hide Clean, Tidy;
  }

  lemma CopiesFit(items: seq<Beat>, limit: nat)
    requires forall i :: 0 <= i < |items| ==> |items[i].text| <= limit
    ensures FitBeats(CopyBeats(items), limit, true)
    ensures forall level: nat :: 1 <= level <= HISTORY_LEVELS ==> FitBeats(AtLevel(items, level), limit, true)
  {
    hide FitBeat, CopyBeat;
    forall i | 0 <= i < |items|
      ensures FitBeat(CopyBeat(items[i]), limit, true)
      ensures forall level: nat :: 1 <= level <= HISTORY_LEVELS ==>
        FitBeat(CopyBeat(items[i]).(level := Some(level)), limit, true)
    {
      CopyFits(items[i], limit);
    }
  }

  // ---- openings ----

  /** No bullet in front of another is cleaned to nothing or cut behind a space. */
  predicate BulletsWhole(bullets: Option<seq<string>>) {
    bullets.Some? ==> forall i :: 0 <= i < |bullets.value| - 1 ==> Whole(CleanBullets(bullets.value)[i])
  }

  /** An accepted opening is within the limit, which is why that is what it is; and when exactly it is tidy. */
  lemma OpeningFits(b: Beat)
    requires |b.text| <= HISTORY_TEXT && AcceptsBullets(b.bullets)
    ensures |OpeningText(b)| <= HISTORY_TEXT
    ensures Tidy(OpeningText(b)) <==> BulletsWhole(b.bullets)
  {
    hide Clean, Tidy, Joined, Whole;
    CleanTidies(b.text, HISTORY_TEXT);
    if b.bullets.Some? {
      var row := CleanBullets(b.bullets.value);
      forall i | 0 <= i < |row|
        ensures Tidy(row[i]) && |row[i]| <= MAX_SUMMARY_TEXT
      {
        CleanTidies(b.bullets.value[i], MAX_SUMMARY_TEXT);
      }
      JoinedTidy(row);
      if row != [] {
        JoinedLength(row, MAX_SUMMARY_TEXT);
        assert |row| == 1 || |row| == 2 || |row| == 3;
      }
      JoinedEmpty(row);
    }
  }

  lemma JoinedEmpty(texts: seq<string>)
    ensures Joined(texts) == "" ==> |texts| <= 1
    ensures texts == [] ==> Joined(texts) == ""
  {
  }

  /**
    Whatever one record holds, what is read back of it is within all limits, and tidy exactly when a
    version 1 opening is.
   */
  lemma RestoredOne(saved: Saved, ids: set<string>)
    requires RestoreOne(saved, ids).Some?
    ensures WellFormed(RestoreOne(saved, ids).value) && FitRecord(RestoreOne(saved, ids).value, false)
    ensures saved.V1? ==> Phase(RestoreOne(saved, ids).value.history)
    ensures FitRecord(RestoreOne(saved, ids).value, true) <==>
      (saved.V1? && saved.earlier.Some? ==> BulletsWhole(saved.earlier.value.bullets))
  {
    match saved {
      case V1(_, _, _, _, _, _, _) => RestoredFirst(saved, ids);
      case V2(_, _) => RestoredSecond(saved, ids);
    }
  }

  lemma FocusReadFits(value: Option<seq<Topic>>)
    ensures ParseFocus(value).Some? ==> FocusFits(ParseFocus(value).value)
  {
    if ParseFocus(value).Some? {
      ParsedFits(value);
    }
  }

  lemma RestoredSecond(saved: Saved, ids: set<string>)
    requires saved.V2? && RestoreOne(saved, ids).Some?
    ensures WellFormed(RestoreOne(saved, ids).value) && FitRecord(RestoreOne(saved, ids).value, true)
    ensures FitRecord(RestoreOne(saved, ids).value, false)
  {
    hide FitBeat, Clean, Text, NonIncreasing, ParseFocus, FocusFits;
    var t, s := saved.snapshot, RestoreOne(saved, ids).value;
    StepwiseNonIncreasing(s.history);
    CopiesFit(t.recent, MAX_SUMMARY_TEXT);
    CopiesFit(t.history, HISTORY_TEXT);
    CleanText(t.now, NOW_TEXT);
    FocusReadFits(t.focus);
    TidyFits(s);
  }

  lemma RestoredFirst(saved: Saved, ids: set<string>)
    requires saved.V1? && RestoreOne(saved, ids).Some?
    ensures var s := RestoreOne(saved, ids).value;
      && WellFormed(s) && FitRecord(s, false) && Phase(s.history)
      && (FitRecord(s, true) <==> (saved.earlier.Some? ==> BulletsWhole(saved.earlier.value.bullets)))
  {
    hide FitBeat, Clean, Text, NonIncreasing, Phase, ParseFocus, FocusFits, BulletsWhole, CopyBeat, OpeningText,
      WellFormed;
    var s := RestoreOne(saved, ids).value;
    var opening, chapters := OpeningOf(saved.earlier), AtLevel(saved.chapters, 1);
    assert VersionOneParts(s.history, opening, chapters);
    VersionOneStarts(s);
    CopiesFit(saved.recent, MAX_SUMMARY_TEXT);
    CopiesFit(saved.chapters, MAX_SUMMARY_TEXT);
    LongerLimit(chapters, true);
    CleanText(saved.now, NOW_TEXT);
    FocusReadFits(saved.focus);
    if saved.earlier.Some? {
      OpeningBeat(saved.earlier.value);
      assert opening[0] in s.history;
    }
    TidyAnyway(chapters);
  }

  lemma OpeningBeat(b: Beat)
    requires |b.text| <= HISTORY_TEXT && AcceptsBullets(b.bullets)
    ensures var o := OpeningOf(Some(b))[0];
      FitBeat(o, HISTORY_TEXT, false) && (FitBeat(o, HISTORY_TEXT, true) <==> BulletsWhole(b.bullets))
  {
    hide OpeningText, Tidy, BulletsWhole, Clean, AcceptsBullets;
    OpeningFits(b);
  }

  lemma TidyAnyway(items: seq<Beat>)
    requires FitBeats(items, HISTORY_TEXT, true)
    ensures FitBeats(items, HISTORY_TEXT, false)
  {
    hide Tidy;
  }

  lemma SmallTexts()
    ensures Clean("", MAX_SUMMARY_TEXT) == "" && Clean("a", MAX_SUMMARY_TEXT) == "a" && Clean(" a", HISTORY_TEXT) == "a"
  {
    assert Squeeze("") == "" && Squeeze("a") == "a" && Squeeze(" a") == " a";
    assert Trim("") == "" && Trim("a") == "a" && Trim(" a") == "a";
  }

  /** Bullets of which the first is empty leave an opening that begins with a space, and reads back without it. */
  lemma OpeningReadsOtherwise(b: Beat)
    requires b.bullets == Some(["", "a"])
    ensures OpeningText(b) == " a" && !Tidy(OpeningText(b))
    ensures CopyBeat(b.(text := OpeningText(b))).text == "a"
  {
    hide Clean, Tidy, TrimEnd, TrimStart;
    SmallTexts();
    var row := CleanBullets(["", "a"]);
    assert row == ["", "a"];
    JoinedTwo("", "a");
    CleanTidies("", MAX_SUMMARY_TEXT);
    CleanTidies("a", MAX_SUMMARY_TEXT);
    JoinedTidy(row);
    assert !Whole(row[0]);
  }

  /** So a version 1 record with such an opening is restored, saved, and then restored otherwise. */
  lemma OpeningChanges(b: Beat, ids: set<string>)
    requires b.bullets == Some(["", "a"]) && AcceptsBeat(b, ids, HISTORY_TEXT)
    ensures var first := RestoreOne(V1("", Some(b), [], [], "", None, EMPTY_USAGE), ids);
      && first.Some? && |first.value.history| == 1 && first.value.history[0].text == " a"
      && RestoreOne(V2(first.value, EMPTY_USAGE), ids) == Some(Reread(first.value))
      && Reread(first.value).history[0].text == "a"
  {
    hide OpeningText, Clean, Tidy;
    OpeningReadsOtherwise(b);
    CleanTidies("", NOW_TEXT);
    assert AtLevel([], 1) == [] && CopyBeats([]) == [];
    var first := RestoreOne(V1("", Some(b), [], [], "", None, EMPTY_USAGE), ids).value;
    assert first.history == OpeningOf(Some(b));
  }

  lemma JoinedTwo(a: string, b: string)
    ensures Joined([a, b]) == a + " " + b
  {
    assert [a, b][1..] == [b];
  }

  lemma EmptyFits()
    ensures WellFormed(EMPTY_SNAPSHOT) && FitRecord(EMPTY_SNAPSHOT, true) && FitRecord(EMPTY_SNAPSHOT, false)
    ensures Phase(EMPTY_SNAPSHOT.history)
  {
  }

  /** Whatever the branch holds, what is restored is within all limits; a version 1 record also starts in phase. */
  lemma {:induction false} RestoredWellFormed(branch: seq<Saved>, ids: set<string>)
    ensures WellFormed(Restore(branch, ids)) && FitRecord(Restore(branch, ids), false)
    ensures (forall i :: 0 <= i < |branch| ==> branch[i].V1?) ==> Phase(Restore(branch, ids).history)
  {
    hide WellFormed, FitRecord, Phase, RestoreOne;
    if branch != [] {
      var saved := branch[|branch| - 1];
      if RestoreOne(saved, ids).None? {
        RestoredWellFormed(branch[..|branch| - 1], ids);
      } else {
        RestoredOne(saved, ids);
      }
    } else {
      EmptyFits();
    }
  }

  /** A record that stands in the stream it was made from, and whose texts are within their limits. */
  ghost predicate Recorded(s: Snapshot, messages: seq<Message>) {
    && WellFormed(s) && FitRecord(s, false)
    && (s.lastId == "" || Position(messages, s.lastId) > 0)
    && Placed(s.history + s.recent, messages, Cursor(messages, s.lastId))
  }

  lemma PositionMember(messages: seq<Message>, id: string)
    requires Position(messages, id) > 0
    ensures id in Ids(messages)
  {
    assert Ids(messages)[Position(messages, id) - 1] == id;
  }

  /** Cleaning changes no text of the record. */
  ghost predicate ReadsAlike(s: Snapshot) {
    && Uncut(s.now) == s.now && (s.focus.Some? ==> FocusWhole(s.focus.value))
    && (forall b :: b in s.recent ==> Uncut(b.text) == b.text)
    && (forall b :: b in s.history ==> Tidy(b.text) && Uncut(b.text) == b.text)
  }

  lemma CopiedSame(items: seq<Beat>, limit: nat, tidy: bool)
    requires FitBeats(items, limit, tidy) && limit <= HISTORY_TEXT
    ensures CopyBeats(items) == items <==> forall b :: b in items ==> Tidy(b.text) && Uncut(b.text) == b.text
  {
    hide Tidy, Clean, Uncut;
    forall i | 0 <= i < |items|
      ensures CopyBeat(items[i]) == items[i] <==> Tidy(items[i].text) && Uncut(items[i].text) == items[i].text
    {
      assert items[i] in items && FitBeat(items[i], limit, tidy);
      CleanStays(items[i].text, HISTORY_TEXT);
    }
    hide CopyBeat;
    if CopyBeats(items) == items {
      forall b | b in items
        ensures Tidy(b.text) && Uncut(b.text) == b.text
      {
        var i :| 0 <= i < |items| && items[i] == b;
        assert CopyBeats(items)[i] == items[i];
      }
    }
  }

  /** Entries whose texts lose the space they were cut behind, if they were. */
  function UncutBeats(items: seq<Beat>): (r: seq<Beat>)
    ensures |r| == |items| && forall i :: 0 <= i < |r| ==> r[i] == items[i].(text := Uncut(items[i].text))
  {
    seq(|items|, i requires 0 <= i < |items| => items[i].(text := Uncut(items[i].text)))
  }

  lemma CopiesAgain(items: seq<Beat>, limit: nat)
    requires FitBeats(items, limit, true) && limit <= HISTORY_TEXT
    ensures CopyBeats(items) == UncutBeats(items)
  {
    forall i | 0 <= i < |items|
      ensures CopyBeat(items[i]) == items[i].(text := Uncut(items[i].text))
    {
      assert items[i] in items && FitBeat(items[i], limit, true);
      CleanAgain(items[i].text, HISTORY_TEXT);
      hide Tidy, Clean, Uncut;
    }
    hide CopyBeat, Uncut;
  }

  /** The entries of a recorded snapshot are ones that restoring accepts. */
  lemma RecordedAccepted(s: Snapshot, messages: seq<Message>, ids: set<string>)
    requires Recorded(s, messages) && forall id :: id in Ids(messages) ==> id in ids
    ensures AcceptsBeats(s.history, ids, HISTORY_TEXT) && AcceptsBeats(s.recent, ids, MAX_SUMMARY_TEXT)
    ensures s.lastId == "" || s.lastId in ids
  {
    hide Tidy;
    var all, last := s.history + s.recent, Cursor(messages, s.lastId);
    forall i | 0 <= i < |all|
      ensures all[i].from in ids && all[i].to in ids
    {
      assert SpanIn(all[i], messages, last);
      PositionMember(messages, all[i].from);
      PositionMember(messages, all[i].to);
    }
    assert forall i :: 0 <= i < |s.history| ==> s.history[i] == all[i] && FitBeat(s.history[i], HISTORY_TEXT, false);
    assert forall i :: 0 <= i < |s.recent| ==>
      s.recent[i] == all[|s.history| + i] && FitBeat(s.recent[i], MAX_SUMMARY_TEXT, true);
    if s.lastId != "" {
      PositionMember(messages, s.lastId);
    }
  }

  /**
    `restore` never rejects what the engine saves. It gives back the saved record with its texts cleaned
    again, so exactly the saved record if and only if cleaning changes no text.
   */
  lemma SaveAccepted(s: Snapshot, u: Usage, messages: seq<Message>, ids: set<string>, branch: seq<Saved>)
    requires Recorded(s, messages) && AcceptsUsage(u)
    requires forall id :: id in Ids(messages) ==> id in ids
    ensures RestoreOne(V2(s, u), ids) == Some(Reread(s))
    ensures Restore(branch + [V2(s, u)], ids) == Reread(s)
    ensures Reread(s) == s <==> ReadsAlike(s)
  {
    hide Tidy, FitBeat, Uncut, Clean, Placed, AcceptsBeats, AcceptsUsage, FitBeats, FocusFits, FocusWhole, ParseFocus;
    RecordedAccepted(s, messages, ids);
    CopiedSame(s.history, HISTORY_TEXT, false);
    CopiedSame(s.recent, MAX_SUMMARY_TEXT, true);
    RecentTidy(s.recent);
    CleanStays(s.now, NOW_TEXT);
    FocusReread(s.focus);
  }

  lemma RecentTidy(items: seq<Beat>)
    requires FitBeats(items, MAX_SUMMARY_TEXT, true)
    ensures forall b :: b in items ==> Tidy(b.text)
  {
    hide Tidy;
  }

  lemma FocusReread(focus: Option<seq<Topic>>)
    requires focus.Some? ==> FocusFits(focus.value)
    ensures ParseFocus(focus) == focus <==> (focus.Some? ==> FocusWhole(focus.value))
  {
    if focus.Some? {
      FocusAgain(focus.value);
    }
  }

  /** Of a tidy record, reading back takes away spaces that texts were cut behind, and nothing else of its entries. */
  lemma TidyReread(s: Snapshot)
    requires FitRecord(s, true)
    ensures var r := Reread(s);
      r == s.(history := UncutBeats(s.history), recent := UncutBeats(s.recent), now := Uncut(s.now), focus := r.focus)
  {
    hide Tidy, FitBeat, Uncut, Clean, FocusFits, ParseFocus;
    CopiesAgain(s.history, HISTORY_TEXT);
    CopiesAgain(s.recent, MAX_SUMMARY_TEXT);
    CleanAgain(s.now, NOW_TEXT);
  }

  lemma RecordedAppended(s: Snapshot, messages: seq<Message>, more: seq<Message>)
    requires Recorded(s, messages)
    ensures Recorded(s, messages + more) && Cursor(messages + more, s.lastId) == Cursor(messages, s.lastId)
  {
    if s.lastId != "" {
      PositionAppended(messages, more, s.lastId);
    }
    PlacedAppended(s.history + s.recent, messages, more, Cursor(messages, s.lastId));
  }

  /** Applying a batch that covers the messages after the cursor moves the cursor to its end and nowhere else. */
  lemma ApplyAdvances(s: Snapshot, b: Batch, summary: Summary, recap: bool, norm: string -> string,
                      messages: seq<Message>, end: nat)
    requires Stream(messages) && Recorded(s, messages) && Covers(b, messages, Cursor(messages, s.lastId), end)
    requires Apply(s, b, summary, recap, norm).Some? && CleanSummary(summary) && Timestamp(b.at) == b.at
    ensures var r := Apply(s, b, summary, recap, norm).value; Recorded(r, messages) && Cursor(messages, r.lastId) == end
  {
    ApplyWellFormed(s, b, summary, recap, norm);
    ApplyFits(s, b, summary, recap, norm, false);
    PositionEmpty(messages);
    ApplyPlaced(s, b, summary, recap, norm, messages);
  }

  lemma {:induction false} PositionEmpty(messages: seq<Message>)
    requires Stream(messages)
    ensures Position(messages, "") == 0
  {
    if messages != [] {
      PositionEmpty(messages[1..]);
    }
  }
}
