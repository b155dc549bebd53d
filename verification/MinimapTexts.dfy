/** The texts of the record: how a reply is cleaned and checked, and that what is recorded stays clean. */
module MinimapTexts {
  import opened Prelude
  import opened Minimap

  // ---- cleaning ----

  /** White space, or a control character, which cleaning turns into a space. */
  predicate Gap(c: char) {
    IsSpace(c) || c <= '\U{001F}' || '\U{007F}' <= c <= '\U{009F}'
  }

  /** Every run of white space and control characters becomes one space. */
  function Squeeze(s: string): string {
    if s == "" then ""
    else if !Gap(s[0]) then [s[0]] + Squeeze(s[1..])
    else if |s| > 1 && Gap(s[1]) then Squeeze(s[1..])
    else " " + Squeeze(s[1..])
  }

  /** Gaps squeezed, ends trimmed, and then cut to a length. */
  function Clean(s: string, limit: nat): string {
    Prefix(Trim(Squeeze(s)), limit)
  }

  /** No gap but single spaces. */
  ghost predicate Squeezed(t: string) {
    && (forall i :: 0 <= i < |t| ==> t[i] == ' ' || !Gap(t[i]))
    && (forall i :: 0 < i < |t| ==> !(t[i - 1] == ' ' && t[i] == ' '))
  }

  /** What cleaning leaves, which may have been cut behind a space. */
  ghost predicate Tidy(t: string) {
    Squeezed(t) && (t != "" ==> t[0] != ' ')
  }

  lemma {:induction false} SqueezeSqueezes(s: string)
    ensures Squeezed(Squeeze(s))
    ensures s != "" && !Gap(s[0]) ==> Squeeze(s) != "" && Squeeze(s)[0] == s[0]
  {
    if s != "" {
      SqueezeSqueezes(s[1..]);
    }
  }

  lemma {:induction false} SqueezeSame(t: string)
    requires Squeezed(t)
    ensures Squeeze(t) == t
  {
    if t != "" {
      assert Squeezed(t[1..]);
      SqueezeSame(t[1..]);
    }
  }

  lemma SqueezedPart(t: string, i: nat, j: nat)
    requires Squeezed(t) && i <= j <= |t|
    ensures Squeezed(t[i..j])
  {
  }

  lemma TrimSlice(s: string) returns (i: nat, j: nat)
    ensures i <= j <= |s| && Trim(s) == s[i..j]
  {
    hide IsSpace, Blank, TrimStart, TrimEnd;
    var e := TrimEnd(s);
    var r := TrimStart(e);
    i, j := |e| - |r|, |e|;
    assert Trim(s) == r;
    assert s[i..j] == s[..j][i..];
  }

  /** Cleaning leaves a tidy text of at most the limit. */
  lemma CleanTidies(s: string, limit: nat)
    ensures Tidy(Clean(s, limit)) && |Clean(s, limit)| <= limit
  {
    hide Trim, Squeeze, Squeezed, Gap, IsSpace;
    SqueezeSqueezes(s);
    var i, j := TrimSlice(Squeeze(s));
    SqueezedPart(Squeeze(s), i, j);
    var t := Trim(Squeeze(s));
    SqueezedPart(t, 0, |Prefix(t, limit)|);
    assert Prefix(t, limit) == t[0..|Prefix(t, limit)|];
    assert IsSpace(' ') by {
      SpaceIsSpace();
    }
  }

  lemma SpaceIsSpace()
    ensures IsSpace(' ')
  {
  }

  lemma TidyEnds(t: string)
    requires Tidy(t) && t != ""
    ensures !IsSpace(t[0])
    ensures if t[|t| - 1] == ' ' then |t| > 1 && IsSpace(t[|t| - 1]) && !IsSpace(t[|t| - 2]) else !IsSpace(t[|t| - 1])
  {
  }

  /** A tidy text without the space it was cut behind, if it was. */
  function Uncut(t: string): string {
    if t != "" && t[|t| - 1] == ' ' then t[..|t| - 1] else t
  }

  /** Cleaning a tidy text again takes away a space it was cut behind, and nothing else. */
  lemma CleanAgain(t: string, limit: nat)
    requires Tidy(t) && |t| <= limit
    ensures Clean(t, limit) == Uncut(t)
  {
    SqueezeSame(t);
    TidyTrimmed(t);
    hide Trim, Squeeze, Tidy;
  }

  lemma {:induction false} SqueezeShortens(s: string)
    ensures |Squeeze(s)| <= |s|
  {
    if s != "" {
      SqueezeShortens(s[1..]);
    }
  }

  lemma CleanShortens(s: string, limit: nat)
    ensures |Clean(s, limit)| <= |s|
  {
    hide Trim, Squeeze;
    SqueezeShortens(s);
    var i, j := TrimSlice(Squeeze(s));
  }

  lemma TidyTrimmed(t: string)
    requires Tidy(t)
    ensures Trim(t) == Uncut(t)
  {
    hide Tidy, IsSpace, TrimEnd, TrimStart, Blank;
    if t != "" {
      TidyEnds(t);
      if t[|t| - 1] == ' ' {
        TrimEndOnce(t);
      } else {
        TrimEndNone(t);
      }
    } else {
      TrimEndNone(t);
    }
    TrimStartNone(Uncut(t));
  }

  lemma TrimEndOnce(t: string)
    requires |t| > 1 && IsSpace(t[|t| - 1]) && !IsSpace(t[|t| - 2])
    ensures TrimEnd(t) == t[..|t| - 1]
  {
    TrimEndNone(t[..|t| - 1]);
    hide IsSpace;
  }

  lemma TrimEndNone(t: string)
    requires t != "" ==> !IsSpace(t[|t| - 1])
    ensures TrimEnd(t) == t
  {
  }

  lemma TrimStartNone(t: string)
    requires t != "" ==> !IsSpace(t[0])
    ensures TrimStart(t) == t
  {
  }

  function Letters(n: nat): string {
    seq(n, i requires 0 <= i < n => 'a')
  }

  /**
    A headline whose space falls on the last place is cut right behind it, and loses that space when it
    is read back.
   */
  lemma CutBehindSpace()
    ensures var headline := Clean(Letters(NOW_TEXT - 1) + " b", NOW_TEXT);
      headline == Letters(NOW_TEXT - 1) + " " && Clean(headline, NOW_TEXT) != headline
  {
    var t := Letters(NOW_TEXT - 1) + " b";
    PlainLetters();
    assert Tidy(t);
    hide IsSpace, Squeeze, Trim, Tidy;
    SqueezeSame(t);
    TidyTrimmed(t);
    assert Prefix(t, NOW_TEXT) == Letters(NOW_TEXT - 1) + " ";
    CleanTidies(t, NOW_TEXT);
    CleanAgain(Clean(t, NOW_TEXT), NOW_TEXT);
  }

  lemma PlainLetters()
    ensures !Gap('a') && !Gap('b')
  {
  }

  /** A tidy text within its limit. */
  ghost predicate Text(t: string, limit: nat) {
    Tidy(t) && |t| <= limit
  }

  lemma CleanText(s: string, limit: nat)
    ensures Text(Clean(s, limit), limit)
  {
    CleanTidies(s, limit);
  }

  /** Cleaning leaves exactly the tidy texts as they are that do not end in a space. */
  lemma CleanStays(t: string, limit: nat)
    requires |t| <= limit
    ensures Clean(t, limit) == t <==> Tidy(t) && Uncut(t) == t
  {
    CleanTidies(t, limit);
    if Tidy(t) {
      CleanAgain(t, limit);
    }
    hide Clean, Tidy;
  }

  // ---- texts in a row ----

  function Joined(texts: seq<string>): string {
    if texts == [] then "" else if |texts| == 1 then texts[0] else texts[0] + " " + Joined(texts[1..])
  }

  /** A text that a space can follow. */
  predicate Whole(t: string) {
    t != "" && Uncut(t) == t
  }

  lemma TidyRow(a: string, r: string)
    requires Tidy(a)
    ensures Tidy(a + " " + r) <==> Whole(a) && Tidy(r)
  {
    var t := a + " " + r;
    assert t[|a|] == ' ' && forall i :: 0 <= i < |a| ==> t[i] == a[i];
    assert forall i :: 0 <= i < |r| ==> t[|a| + 1 + i] == r[i];
    hide Gap;
    if Tidy(t) {
      forall i | 0 <= i < |r|
        ensures r[i] == ' ' || !Gap(r[i])
        ensures i > 0 ==> !(r[i - 1] == ' ' && r[i] == ' ')
      {
        assert t[|a| + 1 + i] == r[i] && (i > 0 ==> t[|a| + i] == r[i - 1]);
      }
      assert r != "" ==> !(t[|a|] == ' ' && t[|a| + 1] == ' ');
    } else if Whole(a) && Tidy(r) {
      forall i | 0 <= i < |t|
        ensures t[i] == ' ' || !Gap(t[i])
        ensures i > 0 ==> !(t[i - 1] == ' ' && t[i] == ' ')
      {
        if i > |a| {
          assert t[i] == r[i - |a| - 1] && (i > |a| + 1 ==> t[i - 1] == r[i - |a| - 2]);
        }
      }
    }
  }

  /** Tidy texts in a row are tidy exactly when none before the last is empty or ends in a space. */
  lemma {:induction false} JoinedTidy(texts: seq<string>)
    requires forall i :: 0 <= i < |texts| ==> Tidy(texts[i])
    ensures Tidy(Joined(texts)) <==> forall i :: 0 <= i < |texts| - 1 ==> Whole(texts[i])
  {
    if |texts| > 1 {
      JoinedTidy(texts[1..]);
      TidyRow(texts[0], Joined(texts[1..]));
      hide Tidy, Whole;
    } else if texts == [] {
      assert Tidy("");
    }
  }

  lemma {:induction false} JoinedLength(texts: seq<string>, limit: nat)
    requires texts != [] && forall i :: 0 <= i < |texts| ==> |texts[i]| <= limit
    ensures |Joined(texts)| <= |texts| * (limit + 1) - 1
  {
    if |texts| > 1 {
      JoinedLength(texts[1..], limit);
    }
  }
}
