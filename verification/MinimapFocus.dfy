/** The focus of a record: one or two topics, with subtopics that share four lines. */
module MinimapFocus {
  import opened Prelude
  import opened Minimap
  import opened MinimapTexts

  const TOPIC_TEXT: nat := 64

  /** The first texts that are not blank. */
  function Named(texts: seq<string>, count: nat): seq<string> {
    Prefix(Filter((t: string) => Trim(t) != "", texts), count)
  }

  function CleanAll(texts: seq<string>): (r: seq<string>)
    ensures |r| == |texts| && forall i :: 0 <= i < |r| ==> r[i] == Clean(texts[i], TOPIC_TEXT)
  {
    seq(|texts|, i requires 0 <= i < |texts| => Clean(texts[i], TOPIC_TEXT))
  }

  function CleanTopic(t: Topic): Topic {
    Topic(Clean(t.topic, TOPIC_TEXT), CleanAll(Named(t.subtopics, 3)))
  }

  function NamedTopics(topics: seq<Topic>): seq<Topic> {
    Prefix(Filter((t: Topic) => Trim(t.topic) != "", topics), 2)
  }

  function CleanTopics(topics: seq<Topic>): (r: seq<Topic>)
    ensures |r| == |topics| && forall i :: 0 <= i < |r| ==> r[i] == CleanTopic(topics[i])
  {
    seq(|topics|, i requires 0 <= i < |topics| => CleanTopic(topics[i]))
  }

  /** How many topics have subtopics: each of them is to keep at least one. */
  function Reserved(topics: seq<Topic>): nat {
    if topics == [] then 0 else (if topics[0].subtopics != [] then 1 else 0) + Reserved(topics[1..])
  }

  /** Subtopics as they fit into the remaining lines, leaving one for each later topic that has some. */
  function Shared(topics: seq<Topic>, remaining: nat): (r: seq<Topic>)
    ensures |r| == |topics|
  {
    if topics == [] then []
    else
      var reserve := Reserved(topics[1..]);
      var kept := Prefix(topics[0].subtopics, if remaining > reserve then remaining - reserve else 0);
      [Topic(topics[0].topic, kept)] + Shared(topics[1..], if remaining > |kept| then remaining - |kept| else 0)
  }

  /** The focus that decoded topics stand for, if there is one. */
  function ParseFocus(value: Option<seq<Topic>>): Option<seq<Topic>> {
    if value.None? then None
    else
      var topics := CleanTopics(NamedTopics(value.value));
      if topics == [] then None else Some(Shared(topics, 4 - |topics|))
  }

  // ---- reading it again ----

  ghost predicate TopicFits(t: Topic) {
    Text(t.topic, TOPIC_TEXT) && |t.subtopics| <= 3 && forall i :: 0 <= i < |t.subtopics| ==>
      Text(t.subtopics[i], TOPIC_TEXT)
  }

  /** What a parsed focus is like. */
  ghost predicate FocusFits(topics: seq<Topic>) {
    && 1 <= |topics| <= 2 && (forall i :: 0 <= i < |topics| ==> TopicFits(topics[i]))
    && Shared(topics, 4 - |topics|) == topics
  }

  lemma CleanTopicFits(t: Topic)
    ensures TopicFits(CleanTopic(t))
  {
    hide Clean, Tidy;
    CleanText(t.topic, TOPIC_TEXT);
    var named := Named(t.subtopics, 3);
    forall i | 0 <= i < |named|
      ensures Text(Clean(named[i], TOPIC_TEXT), TOPIC_TEXT)
    {
      CleanText(named[i], TOPIC_TEXT);
    }
  }

  lemma SharedOne(a: Topic, remaining: nat)
    ensures Shared([a], remaining) == [Topic(a.topic, Prefix(a.subtopics, remaining))]
  {
    assert [a][1..] == [];
  }

  lemma SharedTwo(a: Topic, b: Topic)
    ensures var kept := Prefix(a.subtopics, if b.subtopics != [] then 1 else 2);
      Shared([a, b], 2) == [Topic(a.topic, kept), Topic(b.topic, Prefix(b.subtopics, 2 - |kept|))]
  {
    assert [a, b][1..] == [b] && [b][1..] == [];
    assert Reserved([b]) == if b.subtopics != [] then 1 else 0;
    var kept := Prefix(a.subtopics, if b.subtopics != [] then 1 else 2);
    SharedOne(b, 2 - |kept|);
  }

  /** Sharing out what was shared out changes nothing; and what is shared are texts there were. */
  lemma SharedAgain(topics: seq<Topic>)
    requires 1 <= |topics| <= 2
    ensures var r := Shared(topics, 4 - |topics|);
      && Shared(r, 4 - |topics|) == r
      && forall i :: 0 <= i < |r| ==> r[i].topic == topics[i].topic && r[i].subtopics <= topics[i].subtopics
  {
    if |topics| == 1 {
      assert topics == [topics[0]];
      OneAgain(topics[0]);
    } else {
      assert topics == [topics[0], topics[1]];
      TwoAgain(topics[0], topics[1]);
    }
    hide Shared;
  }

  lemma OneAgain(a: Topic)
    ensures var r := Shared([a], 3);
      |r| == 1 && Shared(r, 3) == r && r[0].topic == a.topic && r[0].subtopics <= a.subtopics
  {
    hide Shared;
    SharedOne(a, 3);
    var kept := Prefix(a.subtopics, 3);
    assert Prefix(kept, 3) == kept;
    SharedOne(Topic(a.topic, kept), 3);
  }

  lemma TwoAgain(a: Topic, b: Topic)
    ensures var r := Shared([a, b], 2);
      && |r| == 2 && Shared(r, 2) == r
      && r[0].topic == a.topic && r[0].subtopics <= a.subtopics
      && r[1].topic == b.topic && r[1].subtopics <= b.subtopics
  {
    hide Shared;
    SharedTwo(a, b);
    var kept := Prefix(a.subtopics, if b.subtopics != [] then 1 else 2);
    var more := Prefix(b.subtopics, 2 - |kept|);
    assert more != [] <==> b.subtopics != [];
    assert Prefix(kept, if more != [] then 1 else 2) == kept && Prefix(more, 2 - |kept|) == more;
    SharedTwo(Topic(a.topic, kept), Topic(b.topic, more));
  }

  /** Whatever topics are read, the focus they stand for is within its limits. */
  lemma ParsedFits(value: Option<seq<Topic>>)
    requires ParseFocus(value).Some?
    ensures FocusFits(ParseFocus(value).value)
  {
    hide Shared, CleanTopic, Text;
    var named := NamedTopics(value.value);
    var topics := CleanTopics(named);
    SharedAgain(topics);
    var r := Shared(topics, 4 - |topics|);
    forall i | 0 <= i < |r|
      ensures TopicFits(r[i])
    {
      CleanTopicFits(named[i]);
    }
  }

  /** No text of the focus is empty or was cut behind a space. */
  predicate FocusWhole(topics: seq<Topic>) {
    forall i :: 0 <= i < |topics| ==> Whole(topics[i].topic) && AllWhole(topics[i].subtopics)
  }

  predicate AllWhole(texts: seq<string>) {
    forall i :: 0 <= i < |texts| ==> Whole(texts[i])
  }

  lemma TextAgain(t: string)
    requires Text(t, TOPIC_TEXT)
    ensures Trim(t) == "" <==> t == ""
    ensures Clean(t, TOPIC_TEXT) == t <==> Uncut(t) == t
  {
    TidyTrimmed(t);
    CleanStays(t, TOPIC_TEXT);
    if t != "" {
      TidyEnds(t);
    }
    hide Tidy, Trim, Clean;
  }

  lemma {:induction false} FilterKeeps<T(!new)>(p: T -> bool, s: seq<T>)
    ensures |Filter(p, s)| == |s| <==> forall x :: x in s ==> p(x)
    ensures |Filter(p, s)| == |s| ==> Filter(p, s) == s
  {
    if s != [] {
      FilterKeeps(p, s[1..]);
      assert s == [s[0]] + s[1..];
    }
  }

  /** Reading some clean texts again keeps them exactly when each is whole. */
  lemma TextsAgain(texts: seq<string>, count: nat)
    requires |texts| <= count && forall i :: 0 <= i < |texts| ==> Text(texts[i], TOPIC_TEXT)
    ensures CleanAll(Named(texts, count)) == texts <==> AllWhole(texts)
  {
    hide Text, Clean, Trim, Filter;
    var p := (t: string) => Trim(t) != "";
    FilterKeeps(p, texts);
    forall i | 0 <= i < |texts|
      ensures Trim(texts[i]) == "" <==> texts[i] == ""
      ensures Clean(texts[i], TOPIC_TEXT) == texts[i] <==> Uncut(texts[i]) == texts[i]
    {
      TextAgain(texts[i]);
    }
    if CleanAll(Named(texts, count)) == texts {
      assert |Filter(p, texts)| == |texts|;
      forall i | 0 <= i < |texts|
        ensures Whole(texts[i])
      {
        assert texts[i] in texts && CleanAll(Named(texts, count))[i] == texts[i];
      }
    }
    if AllWhole(texts) {
      forall x | x in texts
        ensures p(x)
      {
        var i :| 0 <= i < |texts| && texts[i] == x;
        assert Whole(texts[i]);
      }
      assert Named(texts, count) == texts;
      assert CleanAll(texts) == texts;
    }
  }

  lemma TopicAgain(t: Topic)
    requires TopicFits(t)
    ensures CleanTopic(t) == t <==> Uncut(t.topic) == t.topic && AllWhole(t.subtopics)
    ensures Trim(t.topic) == "" <==> t.topic == ""
    ensures |CleanTopic(t).subtopics| <= |t.subtopics|
  {
    hide Text, Clean, Trim, Filter, Tidy;
    TextAgain(t.topic);
    TextsAgain(t.subtopics, 3);
  }

  /** Reading a focus again keeps it exactly when none of its texts is empty or was cut behind a space. */
  lemma FocusAgain(topics: seq<Topic>)
    requires FocusFits(topics)
    ensures ParseFocus(Some(topics)) == Some(topics) <==> FocusWhole(topics)
  {
    hide Text, Clean, Trim, Filter, Tidy, CleanTopic, Shared, TopicFits, AllWhole;
    var p := (t: Topic) => Trim(t.topic) != "";
    FilterKeeps(p, topics);
    forall i | 0 <= i < |topics|
      ensures CleanTopic(topics[i]) == topics[i] <==>
        Uncut(topics[i].topic) == topics[i].topic && AllWhole(topics[i].subtopics)
      ensures Trim(topics[i].topic) == "" <==> topics[i].topic == ""
      ensures |CleanTopic(topics[i]).subtopics| <= |topics[i].subtopics|
    {
      TopicAgain(topics[i]);
    }
    if FocusWhole(topics) {
      forall x | x in topics
        ensures p(x)
      {
        var i :| 0 <= i < |topics| && topics[i] == x;
        assert Whole(topics[i].topic);
      }
      assert NamedTopics(topics) == topics;
      assert CleanTopics(topics) == topics;
    }
    if ParseFocus(Some(topics)) == Some(topics) {
      assert NamedTopics(topics) == topics;
      var clean := CleanTopics(topics);
      SharedAgain(clean);
      forall i | 0 <= i < |topics|
        ensures Whole(topics[i].topic) && AllWhole(topics[i].subtopics)
      {
        assert topics[i] in topics && p(topics[i]);
        assert topics[i].subtopics <= clean[i].subtopics && clean[i] == CleanTopic(topics[i]);
        assert topics[i].topic == CleanTopic(topics[i]).topic;
      }
    }
  }
}
