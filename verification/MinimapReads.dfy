/** What is read: replies, the focus, saved records and batches, said of what was sent, saved or is unread. */
module MinimapReads {
  import opened Prelude
  import opened Minimap
  import opened MinimapTexts
  import opened MinimapFocus
  import opened MinimapReplies
  import opened MinimapRestore

  // ---- replies ----

  /** The words of a text: what stands between white space and control characters. */
  function Words(s: string, word: string): seq<string> {
    var ended := if word == "" then [] else [word];
    if s == "" then ended
    else if Gap(s[0]) then ended + Words(s[1..], "")
    else Words(s[1..], word + [s[0]])
  }

  lemma {:induction false} SqueezeKeepsWords(s: string, word: string)
    ensures Words(Squeeze(s), word) == Words(s, word)
  {
    if s != "" {
      hide Gap;
      var rest := Squeeze(s[1..]);
      GapsAlike();
      if !Gap(s[0]) {
        SqueezeKeepsWords(s[1..], word + [s[0]]);
        assert ([s[0]] + rest)[1..] == rest;
      } else if |s| > 1 && Gap(s[1]) {
        SqueezeKeepsWords(s[1..], word);
        assert Words(s[1..], "") == Words(s[2..], "");
        assert Words(s[1..], word) == (if word == "" then [] else [word]) + Words(s[2..], "");
      } else {
        SqueezeKeepsWords(s[1..], "");
        assert (" " + rest)[1..] == rest;
      }
    }
  }

  lemma GapsAlike()
    ensures Gap(' ')
  {
  }

  lemma SpaceIsGap(c: char)
    requires IsSpace(c)
    ensures Gap(c)
  {
  }

  lemma FirstGap(s: string)
    requires s != "" && Gap(s[0])
    ensures Words(s[1..], "") == Words(s, "")
  {
  }

  lemma {:induction false} TrimStartKeepsWords(s: string)
    ensures Words(TrimStart(s), "") == Words(s, "")
  {
    hide IsSpace, Blank, Words;
    if s != "" && IsSpace(s[0]) {
      SpaceIsGap(s[0]);
      TrimStartKeepsWords(s[1..]);
      hide Gap;
      FirstGap(s);
    }
  }

  lemma {:induction false} LastGap(s: string, word: string)
    requires s != "" && Gap(s[|s| - 1])
    ensures Words(s[..|s| - 1], word) == Words(s, word)
  {
    hide Gap;
    var init := s[..|s| - 1];
    if init == "" {
      assert s[1..] == "" && Words("", "") == [];
    } else {
      assert init[1..] == s[1..][..|s[1..]| - 1];
      if Gap(s[0]) {
        LastGap(s[1..], "");
      } else {
        LastGap(s[1..], word + [s[0]]);
      }
    }
  }

  lemma {:induction false} TrimEndKeepsWords(s: string)
    ensures Words(TrimEnd(s), "") == Words(s, "")
  {
    hide IsSpace, Blank, Words;
    if s != "" && IsSpace(s[|s| - 1]) {
      SpaceIsGap(s[|s| - 1]);
      TrimEndKeepsWords(s[..|s| - 1]);
      hide Gap;
      LastGap(s, "");
    }
  }

  lemma TrimKeepsWords(s: string)
    ensures Words(Trim(s), "") == Words(s, "")
  {
    TrimEndKeepsWords(s);
    TrimStartKeepsWords(TrimEnd(s));
    hide TrimStart, TrimEnd, Words, Blank, IsSpace;
  }

  /** Cleaning keeps the words of a text and their order, until the text is cut. */
  lemma CleanKeepsWords(s: string, limit: nat) returns (whole: string)
    ensures Words(whole, "") == Words(s, "") && Clean(s, limit) == (if |whole| <= limit then whole else whole[..limit])
    ensures whole != "" ==> !IsSpace(whole[0]) && !IsSpace(whole[|whole| - 1])
    ensures Squeezed(whole)
  {
    hide Squeeze, IsSpace, Words, Trim, Squeezed, Blank;
    SqueezeKeepsWords(s, "");
    TrimKeepsWords(Squeeze(s));
    whole := Trim(Squeeze(s));
    SqueezeSqueezes(s);
    var i, j := TrimSlice(Squeeze(s));
    SqueezedPart(Squeeze(s), i, j);
  }

  /** Something other than white space is said. */
  predicate Says(text: Option<string>) {
    text.Some? && exists i :: 0 <= i < |text.value| && !IsSpace(text.value[i])
  }

  lemma PresentSays(text: Option<string>)
    ensures Present(text) <==> Says(text)
  {
    hide Trim;
    assert text.Some? ==> (Trim(text.value) == "" <==> Blank(text.value));
  }

  /** The texts of a reply are taken over cleaned, and without a headline of its own its topics make one. */
  lemma ReplyTexts(reply: Reply, fold: bool, compact: bool)
    requires ParseSummary(reply, fold, compact).Some?
    ensures var s := ParseSummary(reply, fold, compact).value;
      && s.beat == Clean(reply.beat, 4096)
      && s.folded == (if reply.folded.Some? then Clean(reply.folded.value, 4096) else "")
      && s.compact == (if reply.compact.Some? then Clean(reply.compact.value, 4096) else "")
      && s.focus == ParseFocus(reply.focus) && (s.focus.Some? ==> 1 <= |s.focus.value| <= 2)
      && s.now == if Says(reply.now) then Clean(reply.now.value, 180)
                  else if |s.focus.value| == 1 then s.focus.value[0].topic
                  else s.focus.value[0].topic + "; " + s.focus.value[1].topic
  {
    hide Clean, Says, Shared;
    PresentSays(reply.now);
    if ParseFocus(reply.focus).Some? {
      ParsedFits(reply.focus);
      TopicsNamed(ParseFocus(reply.focus).value);
    }
    hide ParseFocus, Present, FocusFits;
  }

  lemma TopicsNamed(topics: seq<Topic>)
    requires 1 <= |topics| <= 2
    ensures TopicsText(topics) ==
      if |topics| == 1 then topics[0].topic else topics[0].topic + "; " + topics[1].topic
  {
    if |topics| == 2 {
      assert topics[1..] == [topics[1]];
    }
  }

  /** Tone and positions are taken over as they are, and so is one of the six kinds. */
  lemma ReplyMarks(reply: Reply, fold: bool, compact: bool)
    requires ParseSummary(reply, fold, compact).Some?
    ensures var s := ParseSummary(reply, fold, compact).value;
      && s.tone == reply.tone
      && (if reply.dropRecent.Some? then s.dropRecent == reply.dropRecent.value else s.dropRecent == [])
      && (if reply.replaceRecent.Some? then s.replaceRecent.Some? && s.replaceRecent.value == reply.replaceRecent.value
          else s.replaceRecent.None?)
      && s.kind == if reply.kind in {Some("ask"), Some("decision"), Some("change"), Some("check"), Some("blocker"),
                                     Some("note")} then reply.kind else None
  {
    hide ParseFocus, NowOf, TextOf, Clean;
  }

  /** A reply that leaves the entries as they are and says something new. */
  predicate Adds(reply: Reply) {
    && reply.replaceRecent.None? && (reply.dropRecent.None? || |reply.dropRecent.value| == 0)
    && Says(Some(reply.beat))
  }

  /** At most six positions of recent entries, none named twice. */
  predicate NamesSix(positions: seq<int>) {
    && |positions| <= 6 && (forall i :: 0 <= i < |positions| ==> 0 <= positions[i] <= 5)
    && forall i, j :: 0 <= i < j < |positions| ==> positions[i] != positions[j]
  }

  /**
    A reply is refused exactly when a text is too long, it gives neither headline nor focus, it names positions
    that cannot be or one twice, or a text that a fold needs is missing or comes to nothing.
   */
  lemma ReplyRefused(reply: Reply, fold: bool, compact: bool)
    ensures ParseSummary(reply, fold, compact).None? <==>
      || |reply.beat| > 4096 || (reply.folded.Some? && |reply.folded.value| > 4096)
      || (reply.compact.Some? && |reply.compact.value| > 4096)
      || (!Says(reply.now) && ParseFocus(reply.focus).None?)
      || (reply.dropRecent.Some? && !NamesSix(reply.dropRecent.value))
      || (reply.replaceRecent.Some? && reply.replaceRecent.value !in {0, 1, 2, 3, 4, 5})
      || (fold && Adds(reply) && (reply.folded.None? || Clean(reply.folded.value, 4096) == ""))
      || (compact && Adds(reply) && (reply.compact.None? || Clean(reply.compact.value, 4096) == ""))
  {
    hide Clean, Says, ParseFocus, NowOf;
    PresentSays(reply.now);
    PresentSays(Some(reply.beat));
    hide Trim;
  }

  // ---- focus ----

  function Least(a: nat, b: nat): nat {
    if a < b then a else b
  }

  /** The texts that say something. */
  function Spoken(texts: seq<string>): seq<string> {
    Filter((t: string) => Says(Some(t)), texts)
  }

  /** The topics whose names say something. */
  function SpokenTopics(topics: seq<Topic>): seq<Topic> {
    Filter((t: Topic) => Says(Some(t.topic)), topics)
  }

  /** A topic as it is kept: its name, and the first of its subtopics that say something. */
  ghost predicate KeptAs(t: Topic, kept: Topic, lines: nat) {
    var spoken := Spoken(t.subtopics);
    && kept.topic == Clean(t.topic, 64) && |kept.subtopics| == lines <= |spoken|
    && forall k :: 0 <= k < lines ==> kept.subtopics[k] == Clean(spoken[k], 64)
  }

  lemma {:induction false} FilterAlike<T(!new)>(p: T -> bool, q: T -> bool, s: seq<T>)
    requires forall x :: p(x) <==> q(x)
    ensures Filter(p, s) == Filter(q, s)
  {
    if s != [] {
      FilterAlike(p, q, s[1..]);
    }
  }

  lemma NamedSpoken(texts: seq<string>)
    ensures Named(texts, 3) == Prefix(Spoken(texts), 3)
  {
    var p, q := (t: string) => Trim(t) != "", (t: string) => Says(Some(t));
    forall t
      ensures p(t) <==> q(t)
    {
      PresentSays(Some(t));
    }
    hide Trim, Says;
    FilterAlike(p, q, texts);
  }

  lemma NamedTopicsSpoken(topics: seq<Topic>)
    ensures NamedTopics(topics) == Prefix(SpokenTopics(topics), 2)
  {
    var p, q := (t: Topic) => Trim(t.topic) != "", (t: Topic) => Says(Some(t.topic));
    forall t: Topic
      ensures p(t) <==> q(t)
    {
      PresentSays(Some(t.topic));
    }
    hide Trim, Says;
    FilterAlike(p, q, topics);
  }

  lemma CleanedAs(t: Topic, lines: nat)
    requires lines <= 3
    ensures var spoken := |Spoken(t.subtopics)|;
      KeptAs(t, Topic(CleanTopic(t).topic, Prefix(CleanTopic(t).subtopics, lines)), Least(spoken, lines))
    ensures |CleanTopic(t).subtopics| == Least(|Spoken(t.subtopics)|, 3)
  {
    NamedSpoken(t.subtopics);
    hide Clean, Spoken, Named;
  }

  /**
    A focus is the first two topics that say something. Topics and subtopics share four lines: one topic keeps up
    to three subtopics; of two, the first leaves a line to the second if that has subtopics at all.
   */
  lemma FocusMeans(topics: seq<Topic>)
    ensures var named, focus := SpokenTopics(topics), ParseFocus(Some(topics));
      if named == [] then focus.None?
      else if |named| == 1 then
        focus.Some? && |focus.value| == 1
        && KeptAs(named[0], focus.value[0], Least(|Spoken(named[0].subtopics)|, 3))
      else
        var first, second := |Spoken(named[0].subtopics)|, |Spoken(named[1].subtopics)|;
        var lines := Least(first, if second > 0 then 1 else 2);
        && focus.Some? && |focus.value| == 2 && KeptAs(named[0], focus.value[0], lines)
        && KeptAs(named[1], focus.value[1], Least(second, 2 - lines))
  {
    hide Shared, CleanTopic, Spoken, SpokenTopics, NamedTopics, KeptAs;
    NamedTopicsSpoken(topics);
    var named := SpokenTopics(topics);
    if |named| == 1 {
      var a := CleanTopic(named[0]);
      CleanedAs(named[0], 3);
      assert CleanTopics(named) == [a];
      SharedOne(a, 3);
    } else if |named| >= 2 {
      var a, b := CleanTopic(named[0]), CleanTopic(named[1]);
      CleanedAs(named[0], if b.subtopics != [] then 1 else 2);
      assert CleanTopics(named[..2]) == [a, b];
      SharedTwo(a, b);
      CleanedAs(named[1], 2 - Least(|a.subtopics|, if b.subtopics != [] then 1 else 2));
    }
  }

  // ---- saved records ----

  /**
    Its text is not too long, it has at most three bullets, none of them too long, and its messages are
    on the branch.
   */
  predicate EntryFits(b: Beat, ids: set<string>, limit: nat) {
    && |b.text| <= limit && b.from in ids && b.to in ids
    && (b.bullets.Some? ==> |b.bullets.value| <= 3 && forall t :: t in b.bullets.value ==> |t| <= 4096)
  }

  predicate EntriesFit(items: seq<Beat>, ids: set<string>, limit: nat, most: nat) {
    |items| <= most && forall b :: b in items ==> EntryFits(b, ids, limit)
  }

  /** Nothing is negative, and no more is unknown than was requested. */
  predicate UsageFits(u: Usage) {
    && u.input >= 0 && u.output >= 0 && u.cacheRead >= 0 && u.cacheWrite >= 0 && u.cost >= 0.0
    && 0 <= u.unknownCost <= u.requests && 0 <= u.unknownTokens <= u.requests
  }

  /** A record that restoring takes, of either version. */
  predicate SaveFits(saved: Saved, ids: set<string>) {
    match saved
    case V1(lastId, earlier, chapters, recent, now, focus, usage) =>
      && UsageFits(usage) && (lastId == "" || lastId in ids) && |now| <= 180 && EntriesFit(recent, ids, 4096, 6)
      && (earlier.Some? ==> EntryFits(earlier.value, ids, 12290)) && EntriesFit(chapters, ids, 4096, 2)
    case V2(s, usage) =>
      && UsageFits(usage) && (s.lastId == "" || s.lastId in ids) && |s.now| <= 180 && EntriesFit(s.recent, ids, 4096, 6)
      && EntriesFit(s.history, ids, 12290, 24) && LevelsFall(s.history)
  }

  /** Every entry has one of four levels, and none a higher one than the entry before it. */
  predicate LevelsFall(history: seq<Beat>) {
    && (forall i :: 0 <= i < |history| ==> history[i].level in {Some(1), Some(2), Some(3), Some(4)})
    && forall i :: 0 < i < |history| ==> history[i].level.value <= history[i - 1].level.value
  }

  lemma BulletsFit(bullets: seq<string>)
    ensures (forall t :: t in bullets ==> |t| <= 4096) <==> forall i :: 0 <= i < |bullets| ==> |bullets[i]| <= 4096
  {
    if forall t :: t in bullets ==> |t| <= 4096 {
      assert forall i :: 0 <= i < |bullets| ==> bullets[i] in bullets;
    }
  }

  lemma EntryAccepted(b: Beat, ids: set<string>, limit: nat)
    ensures AcceptsBeat(b, ids, limit) <==> EntryFits(b, ids, limit)
  {
    if b.bullets.Some? {
      BulletsFit(b.bullets.value);
    }
  }

  lemma EntriesAccepted(items: seq<Beat>, ids: set<string>, limit: nat, most: nat)
    ensures |items| <= most && AcceptsBeats(items, ids, limit) <==> EntriesFit(items, ids, limit, most)
  {
    hide AcceptsBeat, EntryFits;
    forall i | 0 <= i < |items|
      ensures AcceptsBeat(items[i], ids, limit) <==> EntryFits(items[i], ids, limit)
    {
      EntryAccepted(items[i], ids, limit);
    }
    if EntriesFit(items, ids, limit, most) {
      assert forall i :: 0 <= i < |items| ==> items[i] in items;
    }
  }

  lemma LevelsAccepted(history: seq<Beat>)
    requires |history| <= 24
    ensures AcceptsHistory(history) <==> LevelsFall(history)
  {
    forall i | 0 <= i < |history|
      ensures history[i].level in {Some(1), Some(2), Some(3), Some(4)} <==>
        history[i].level.Some? && 1 <= history[i].level.value <= 4
    {
    }
  }

  /** Restoring takes exactly the records that fit. */
  lemma RestoresExactly(saved: Saved, ids: set<string>)
    ensures RestoreOne(saved, ids).Some? <==> SaveFits(saved, ids)
  {
    match saved {
      case V1(_, earlier, chapters, recent, _, _, _) =>
        EntriesAccepted(recent, ids, 4096, 6);
        EntriesAccepted(chapters, ids, 4096, 2);
        if earlier.Some? {
          EntryAccepted(earlier.value, ids, 12290);
        }
      case V2(s, _) =>
        EntriesAccepted(s.recent, ids, 4096, 6);
        EntriesAccepted(s.history, ids, 12290, 24);
        if |s.history| <= 24 {
          LevelsAccepted(s.history);
        }
    }
    hide AcceptsBeat, AcceptsBeats, EntryFits, EntriesFit, AcceptsHistory, LevelsFall, Clean, ParseFocus, CopyBeats,
      AtLevel, OpeningOf;
  }

  /** An entry is read back with its text cleaned, and without a time, kind or level that is none. */
  ghost predicate ReadBack(b: Beat, r: Beat) {
    && r.text == Clean(b.text, 12290) && r.tone == b.tone && r.from == b.from && r.to == b.to && r.recap == b.recap
    && r.omitted == b.omitted && r.bullets.None?
    && r.at == (if b.at.Some? && b.at.value > 0 then b.at else None)
    && r.level == (if b.level in {Some(1), Some(2), Some(3), Some(4)} then b.level else None)
    && r.kind == if b.kind in {Some("ask"), Some("decision"), Some("change"), Some("check"), Some("blocker"),
                               Some("note")} then b.kind else None
  }

  lemma CopyReadsBack(b: Beat)
    ensures ReadBack(b, CopyBeat(b))
  {
    hide Clean;
  }

  /** Each entry of a record is read back in its place, and so are its headline, its focus and how far it had read. */
  lemma RestoredIsReadBack(s: Snapshot, usage: Usage, ids: set<string>)
    requires RestoreOne(V2(s, usage), ids).Some?
    ensures var r := RestoreOne(V2(s, usage), ids).value;
      && r.lastId == s.lastId && r.now == Clean(s.now, 180) && r.focus == ParseFocus(s.focus)
      && |r.history| == |s.history| && (forall i :: 0 <= i < |r.history| ==> ReadBack(s.history[i], r.history[i]))
      && |r.recent| == |s.recent| && (forall i :: 0 <= i < |r.recent| ==> ReadBack(s.recent[i], r.recent[i]))
  {
    hide CopyBeat, ReadBack, Clean, ParseFocus;
    EachReadsBack(s.history);
    EachReadsBack(s.recent);
  }

  /** Chapters are read back at the lowest level. */
  ghost predicate ReadAsChapters(items: seq<Beat>, r: seq<Beat>) {
    && |r| == |items|
    && forall i :: 0 <= i < |r| ==>
         r[i].level == Some(1) && ReadBack(items[i], r[i].(level := LevelOf(items[i].level)))
  }

  /** A version 1 record begins with its opening, at the highest level, and goes on with its chapters, at the lowest. */
  lemma FirstIsReadBack(saved: Saved, ids: set<string>) returns (opening: seq<Beat>, chapters: seq<Beat>)
    requires saved.V1? && RestoreOne(saved, ids).Some?
    ensures var r := RestoreOne(saved, ids).value;
      && r.lastId == saved.lastId && r.now == Clean(saved.now, 180) && r.focus == ParseFocus(saved.focus)
      && r.history == opening + chapters && ReadAsChapters(saved.chapters, chapters)
      && (if saved.earlier.Some?
          then |opening| == 1 && opening[0].level == Some(4) && Opens(saved.earlier.value, opening[0])
          else opening == [])
      && |r.recent| == |saved.recent| && (forall i :: 0 <= i < |r.recent| ==> ReadBack(saved.recent[i], r.recent[i]))
  {
    hide CopyBeat, ReadBack, Clean, ParseFocus, Opens, RestoreOne, OpeningOf, LevelOf, OpeningText;
    opening, chapters := OpeningOf(saved.earlier), AtLevel(saved.chapters, 1);
    EachReadsBack(saved.recent);
    ChaptersReadBack(saved.chapters);
    FirstParts(saved, ids);
    OpeningParts(saved.earlier);
    if saved.earlier.Some? {
      OpeningOpens(saved.earlier.value);
    }
  }

  lemma FirstParts(saved: Saved, ids: set<string>)
    requires saved.V1? && RestoreOne(saved, ids).Some?
    ensures RestoreOne(saved, ids).value ==
      Snapshot(saved.lastId, OpeningOf(saved.earlier) + AtLevel(saved.chapters, 1), CopyBeats(saved.recent),
               Clean(saved.now, NOW_TEXT), ParseFocus(saved.focus))
  {
    hide OpeningOf, AtLevel, CopyBeats, Clean, ParseFocus, AcceptsCommon, AcceptsBeats, AcceptsBeat;
  }

  lemma OpeningParts(earlier: Option<Beat>)
    ensures OpeningOf(earlier) == if earlier.None? then []
      else [CopyBeat(earlier.value).(text := OpeningText(earlier.value), level := Some(4))]
  {
    hide CopyBeat, OpeningText;
  }

  lemma EachReadsBack(items: seq<Beat>)
    ensures forall i :: 0 <= i < |items| ==> ReadBack(items[i], CopyBeats(items)[i])
  {
    hide CopyBeat, ReadBack;
    forall i | 0 <= i < |items|
      ensures ReadBack(items[i], CopyBeats(items)[i])
    {
      CopyReadsBack(items[i]);
    }
  }

  lemma ChaptersReadBack(items: seq<Beat>)
    ensures ReadAsChapters(items, AtLevel(items, 1))
  {
    hide CopyBeat, ReadBack;
    forall i | 0 <= i < |items|
      ensures ReadBack(items[i], AtLevel(items, 1)[i].(level := LevelOf(items[i].level)))
    {
      CopyReadsBack(items[i]);
      CopiedLevel(items[i]);
    }
  }

  lemma CopiedLevel(b: Beat)
    ensures CopyBeat(b).level == LevelOf(b.level)
  {
  }

  /** An opening reads like its bullets, each cleaned, with single spaces between them, or else like its own text. */
  ghost predicate Opens(b: Beat, r: Beat) {
    && (b.bullets == Some([]) || b.bullets.None? ==> r.text == Clean(b.text, 12290))
    && (b.bullets.Some? && |b.bullets.value| == 1 && Clean(b.bullets.value[0], 4096) != "" ==>
          r.text == Clean(b.bullets.value[0], 4096))
    && (b.bullets.Some? && |b.bullets.value| == 2 ==>
          r.text == Clean(b.bullets.value[0], 4096) + " " + Clean(b.bullets.value[1], 4096))
    && ReadBack(b, r.(text := Clean(b.text, 12290), level := LevelOf(b.level)))
  }

  lemma OpeningOpens(b: Beat)
    ensures Opens(b, CopyBeat(b).(text := OpeningText(b), level := Some(HISTORY_LEVELS)))
  {
    CopyReadsBack(b);
    CopiedLevel(b);
    hide Clean, ReadBack;
    if b.bullets.Some? && |b.bullets.value| == 2 {
      var row := CleanBullets(b.bullets.value);
      assert row[1..] == [row[1]] && Joined(row) == row[0] + " " + row[1] && Joined(row)[|row[0]|] == ' ';
    }
  }

  // ---- batches ----

  /**
    A batch holds the ids of the unread messages in order, or, of more than eight (of more than twelve when
    catching up), the first two and the latest; the rest are counted, and the last message's time is its own.
   */
  lemma BatchReads(messages: seq<Minimap.Message>, lastId: string, recap: bool)
    ensures var unread := messages[Cursor(messages, lastId)..];
      var ids, most, batch := Ids(unread), if recap then 12 else 8, ReadBatch(messages, lastId, recap);
      if unread == [] then batch.None?
      else
        && batch.Some? && batch.value.omitted == |unread| - |batch.value.events|
        && batch.value.events == (if |ids| <= most then ids else ids[..2] + ids[|ids| - (most - 2)..])
        && batch.value.from == ids[0] && batch.value.to == ids[|ids| - 1]
        && var at := unread[|unread| - 1].at;
           batch.value.at == if at.Some? && at.value > 0 then at else None
  {
    SampledIds(messages[Cursor(messages, lastId)..], if recap then 12 else 8);
    hide Sampled;
  }
}
