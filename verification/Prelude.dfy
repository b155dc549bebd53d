/** What every part of the model shares: optional values, white space and sequences. */
module Prelude {

  datatype Option<+T> = None | Some(value: T)

  /** The characters JavaScript's `trim` and the class `\s` treat as white space. */
  predicate IsSpace(c: char) {
    c in {' ', '\t', '\n', '\r', '\U{000B}', '\U{000C}', '\U{00A0}', '\U{1680}', '\U{2028}', '\U{2029}',
          '\U{202F}', '\U{205F}', '\U{3000}', '\U{FEFF}'} || '\U{2000}' <= c <= '\U{200A}'
  }

  predicate Blank(s: string) {
    forall i :: 0 <= i < |s| ==> IsSpace(s[i])
  }

  lemma BlankEmpty()
    ensures Blank("")
  {
  }

  lemma BlankAt(s: string, i: nat, j: nat, k: nat)
    requires i <= k < j <= |s| && Blank(s[i..j])
    ensures IsSpace(s[k])
  {
    assert s[i..j][k - i] == s[k];
  }

  lemma BlankPrefixAt(s: string, j: nat, k: nat)
    requires k < j <= |s| && Blank(s[..j])
    ensures IsSpace(s[k])
  {
    assert s[..j][k] == s[k];
  }

  function TrimStart(s: string): (r: string)
    ensures |r| <= |s| && r == s[|s| - |r|..] && Blank(s[..|s| - |r|])
    ensures r != "" ==> !IsSpace(r[0])
    ensures r == "" <==> Blank(s)
  {
    hide IsSpace;
    if s != "" && IsSpace(s[0]) then
      var r := TrimStart(s[1..]);
      var n := |s| - |r|;
      assert s[..n] == [s[0]] + s[1..][..n - 1];
      r
    else s
  }

  function TrimEnd(s: string): (r: string)
    ensures |r| <= |s| && r == s[..|r|] && Blank(s[|r|..])
    ensures r != "" ==> !IsSpace(r[|r| - 1])
    ensures r == "" <==> Blank(s)
  {
    hide IsSpace;
    if s != "" && IsSpace(s[|s| - 1]) then
      var r := TrimEnd(s[..|s| - 1]);
      assert s[|r|..] == s[..|s| - 1][|r|..] + [s[|s| - 1]];
      r
    else s
  }

  function Trim(s: string): (r: string)
    ensures r == "" <==> Blank(s)
    ensures r != "" ==> !IsSpace(r[0]) && !IsSpace(r[|r| - 1])
  {
    var e := TrimEnd(s);
    var r := TrimStart(e);
    assert r != "" ==> r[|r| - 1] == e[|e| - 1];
    r
  }

  lemma TrimAgain(s: string)
    ensures Trim(Trim(s)) == Trim(s)
  {
    var r := Trim(s);
    if r != "" {
      assert !IsSpace(r[0]) && !IsSpace(r[|r| - 1]);
      hide IsSpace, Blank;
      assert TrimEnd(r) == r;
      assert TrimStart(r) == r;
    }
  }

  /** Trimming takes away the white space at both ends, and nothing else. */
  lemma TrimMeans(s: string) returns (i: nat, j: nat)
    ensures i <= j <= |s| && Trim(s) == s[i..j] && Blank(s[..i]) && Blank(s[j..])
    ensures i < j ==> !IsSpace(s[i]) && !IsSpace(s[j - 1])
  {
    hide IsSpace, TrimStart, TrimEnd;
    var e := TrimEnd(s);
    var r := TrimStart(e);
    i, j := |e| - |r|, |e|;
    assert s[i..j] == s[..j][i..] && s[..i] == e[..i];
  }

  /** Whether an optional text is present and not blank: `text?.trim()` as a condition. */
  predicate Present(s: Option<string>) {
    s.Some? && Trim(s.value) != ""
  }

  function Filter<T(!new)>(p: T -> bool, s: seq<T>): (r: seq<T>)
    ensures |r| <= |s|
    ensures forall x :: x in r <==> x in s && p(x)
  {
    if s == [] then []
    else
      var rest := Filter(p, s[1..]);
      assert s == [s[0]] + s[1..];
      if p(s[0]) then [s[0]] + rest else rest
  }

  lemma {:induction false} FilterNone<T(!new)>(p: T -> bool, s: seq<T>)
    requires forall x :: x in s ==> !p(x)
    ensures Filter(p, s) == []
  {
    if s != [] {
      FilterNone(p, s[1..]);
    }
  }

  function Flatten<T>(ss: seq<seq<T>>): seq<T> {
    if ss == [] then [] else ss[0] + Flatten(ss[1..])
  }

  lemma {:induction false} FlattenMember<T>(ss: seq<seq<T>>, x: T)
    ensures x in Flatten(ss) <==> exists i :: 0 <= i < |ss| && x in ss[i]
  {
    if ss != [] {
      FlattenMember(ss[1..], x);
      if i :| 0 <= i < |ss| && x in ss[i] {
        assert i > 0 ==> x in ss[1..][i - 1];
      }
    }
  }

  lemma {:induction false} FlattenAppend<T>(a: seq<seq<T>>, b: seq<seq<T>>)
    ensures Flatten(a + b) == Flatten(a) + Flatten(b)
  {
    if a == [] {
      assert a + b == b;
    } else {
      assert (a + b)[1..] == a[1..] + b;
      FlattenAppend(a[1..], b);
    }
  }

  lemma FlattenSnoc<T>(ss: seq<seq<T>>, x: seq<T>)
    ensures Flatten(ss + [x]) == Flatten(ss) + x
  {
    FlattenAppend(ss, [x]);
    assert [x][1..] == [];
  }

  lemma FlattenPrefix<T>(ss: seq<seq<T>>, k: nat)
    requires k <= |ss|
    ensures Flatten(ss[..k]) <= Flatten(ss)
  {
    FlattenAppend(ss[..k], ss[k..]);
    assert ss == ss[..k] + ss[k..];
  }

  lemma PrefixAt<T>(a: seq<T>, b: seq<T>, i: nat)
    requires i < |a|
    ensures a <= b ==> i < |b| && a[i] == b[i]
  {
  }

  /** The first n elements, or all of them when there are fewer. */
  function Prefix<T>(s: seq<T>, n: nat): seq<T> {
    if n <= |s| then s[..n] else s
  }

  lemma PrefixAppend<T>(a: seq<T>, b: seq<T>, n: nat)
    ensures Prefix(a + b, n) == Prefix(a, n) + Prefix(b, n - |Prefix(a, n)|)
  {
  }

  predicate Distinct<T(==)>(s: seq<T>) {
    forall i, j :: 0 <= i < j < |s| ==> s[i] != s[j]
  }

  lemma {:induction false} FilterDistinct<T(!new)>(p: T -> bool, s: seq<T>)
    requires Distinct(s)
    ensures Distinct(Filter(p, s))
  {
    if s != [] {
      FilterDistinct(p, s[1..]);
      assert s == [s[0]] + s[1..];
    }
  }

  lemma {:induction false} SetSize<T>(s: seq<T>)
    requires Distinct(s)
    ensures |set x | x in s| == |s|
  {
    if s == [] {
      assert (set x | x in s) == {};
    } else {
      var init, last := s[..|s| - 1], s[|s| - 1];
      SetSize(init);
      assert s == init + [last] && last !in init;
      assert (set x | x in s) == (set x | x in init) + {last};
    }
  }

  /** Fields that do not hold the separator can be told apart. */
  lemma FieldsSplit<T>(a: seq<T>, x: seq<T>, b: seq<T>, y: seq<T>, separator: T)
    requires a + [separator] + x == b + [separator] + y && separator !in a && separator !in b
    ensures a == b && x == y
  {
    FieldNotLonger(a, x, b, y, separator);
    FieldNotLonger(b, y, a, x, separator);
    assert a == (a + [separator] + x)[..|a|] && b == (b + [separator] + y)[..|b|];
    assert x == (a + [separator] + x)[|a| + 1..] && y == (b + [separator] + y)[|b| + 1..];
  }

  lemma FieldNotLonger<T>(a: seq<T>, x: seq<T>, b: seq<T>, y: seq<T>, separator: T)
    requires a + [separator] + x == b + [separator] + y && separator !in a
    ensures |a| <= |b|
  {
    if |b| < |a| {
      FieldAt(a, x, |b|, separator);
    }
  }

  lemma FieldAt<T>(a: seq<T>, x: seq<T>, i: nat, separator: T)
    requires i < |a| && separator !in a
    ensures (a + [separator] + x)[i] != separator
  {
    assert (a + [separator] + x)[i] == a[i];
  }

  // ---- positions ----

  /** The positions below n that were not dropped, in order. */
  function Places(n: nat, dropped: set<nat>): (p: seq<nat>)
    ensures forall i :: 0 <= i < |p| ==> p[i] < n && p[i] !in dropped
    ensures forall i, j :: 0 <= i < j < |p| ==> p[i] < p[j]
  {
    if n == 0 then [] else if n - 1 in dropped then Places(n - 1, dropped) else Places(n - 1, dropped) + [n - 1]
  }

  lemma {:induction false} PlacesIgnore(n: nat, dropped: set<nat>, j: nat)
    requires n <= j
    ensures Places(n, dropped + {j}) == Places(n, dropped)
  {
    if n > 0 {
      PlacesIgnore(n - 1, dropped, j);
    }
  }

  lemma {:induction false} PlacesDrop(n: nat, dropped: set<nat>, q: nat)
    requires q < |Places(n, dropped)|
    ensures Places(n, dropped + {Places(n, dropped)[q]}) == Places(n, dropped)[..q] + Places(n, dropped)[q + 1..]
  {
    var p := Places(n, dropped);
    if n - 1 in dropped {
      PlacesDrop(n - 1, dropped, q);
    } else if q < |p| - 1 {
      PlacesDrop(n - 1, dropped, q);
    } else {
      PlacesIgnore(n - 1, dropped, n - 1);
    }
  }
}
