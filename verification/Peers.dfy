/** Short session ids as the roster prints them, and the peer a `to` string names. */
module Peers {
  import opened Prelude

  // ---- short ids ----

  /** How long a prefix two ids share. */
  function Shared(a: string, b: string): (n: nat)
    ensures n <= |a| && n <= |b| && a[..n] == b[..n] && (n < |a| && n < |b| ==> a[n] != b[n])
  {
    if a == "" || b == "" || a[0] != b[0] then 0
    else
      var n := 1 + Shared(a[1..], b[1..]);
      assert a[..n] == [a[0]] + a[1..][..n - 1] && b[..n] == [b[0]] + b[1..][..n - 1];
      n
  }

  /** The longest prefix an id shares with another one. */
  function MostShared(id: string, ids: seq<string>): (n: nat)
    ensures forall other :: other in ids && other != id ==> Shared(id, other) <= n
    ensures n == 0 || exists other :: other in ids && other != id && Shared(id, other) == n
  {
    if ids == [] then 0
    else
      var n := MostShared(id, ids[..|ids| - 1]);
      var last := ids[|ids| - 1];
      assert last in ids && forall other :: other in ids <==> other in ids[..|ids| - 1] || other == last;
      assert n > 0 ==> exists other :: other in ids && other != id && Shared(id, other) == n by {
        if n > 0 {
          var other :| other in ids[..|ids| - 1] && other != id && Shared(id, other) == n;
          assert other in ids;
        }
      }
      if last != id && n < Shared(id, last) then Shared(id, last) else n
  }

  function DashFrom(s: string, from: nat): (r: Option<nat>)
    ensures r.Some? ==> from <= r.value < |s| && s[r.value] == '-'
    ensures forall k :: from <= k < (if r.Some? then r.value else |s|) ==> s[k] != '-'
    decreases |s| - from
  {
    if |s| <= from then None else if s[from] == '-' then Some(from) else DashFrom(s, from + 1)
  }

  function ShortId(id: string, ids: seq<string>): string {
    var min := if MostShared(id, ids) < 8 then 8 else MostShared(id, ids) + 1;
    var dash := DashFrom(id, min);
    Prefix(id, if dash.Some? then dash.value else min)
  }

  /** The printed id of every session. */
  method IdPrefixes(ids: seq<string>) returns (prefixes: map<string, string>)
    ensures prefixes.Keys == set id | id in ids
    ensures forall id :: id in ids ==> prefixes[id] == ShortId(id, ids)
  {
    prefixes := map[];
    for i := 0 to |ids|
      invariant prefixes.Keys == set id | id in ids[..i]
      invariant forall id :: id in ids[..i] ==> prefixes[id] == ShortId(id, ids)
    {
      var id := ids[i];
      assert ids[..i + 1] == ids[..i] + [id];
      var shared := CountShared(id, ids);
      var min := if shared < 8 then 8 else shared + 1;
      var dash := DashFrom(id, min);
      prefixes := prefixes[id := Prefix(id, if dash.Some? then dash.value else min)];
    }
    assert ids[..|ids|] == ids;
  }

  lemma SharedAt(a: string, b: string, n: nat)
    requires n < Shared(a, b)
    ensures a[n] == b[n]
  {
    assert a[..Shared(a, b)][n] == b[..Shared(a, b)][n];
  }

  method SharedLength(id: string, other: string) returns (n: nat)
    ensures n == Shared(id, other)
  {
    n := 0;
    while n < |id| && n < |other| && id[n] == other[n]
      invariant n <= |id| && n <= |other| && id[..n] == other[..n]
    {
      n := n + 1;
    }
    SharedPrefix(id, other, n);
    if n < Shared(id, other) {
      SharedAt(id, other, n);
    }
  }

  method CountShared(id: string, ids: seq<string>) returns (shared: nat)
    ensures shared == MostShared(id, ids)
  {
    shared := 0;
    for j := 0 to |ids|
      invariant shared == MostShared(id, ids[..j])
    {
      var other := ids[j];
      assert ids[..j + 1][..j] == ids[..j];
      if other == id {
        continue;
      }
      var n := SharedLength(id, other);
      shared := if shared < n then n else shared;
    }
    assert ids[..|ids|] == ids;
  }

  lemma {:induction false} SharedPrefix(a: string, b: string, n: nat)
    requires n <= |a| && n <= |b| && a[..n] == b[..n]
    ensures n <= Shared(a, b)
  {
    if n > 0 {
      assert a[0] == a[..n][0] == b[..n][0] == b[0];
      assert a[1..][..n - 1] == a[..n][1..] == b[1..][..n - 1];
      SharedPrefix(a[1..], b[1..], n - 1);
    }
  }

  /**
    A short id is a prefix of its own id only, unless it is the whole of that id. It has at least
    8 characters, and stops at a dash, at the end, or as soon as it is long enough.
   */
  lemma ShortIdSeparates(id: string, ids: seq<string>)
    ensures var p := ShortId(id, ids);
      && p <= id && (p == id || 8 <= |p|)
      && (forall other :: other in ids && other != id && p <= other ==> p == id)
      && (forall other :: other in ids && other != id ==> p != other)
      && (p == id || id[|p|] == '-' || |p| == 8 || |p| == MostShared(id, ids) + 1)
  {
    var p := ShortId(id, ids);
    forall other | other in ids && other != id && p <= other
      ensures p == id
      ensures p != other
    {
      SharedPrefix(id, other, |p|);
      assert Shared(id, other) <= MostShared(id, ids);
    }
  }

  /** No shorter prefix would do: another id shares everything up to the last character it needs. */
  lemma ShortIdNeeded(id: string, ids: seq<string>)
    requires 8 <= MostShared(id, ids)
    ensures exists other :: other in ids && other != id && id[..MostShared(id, ids)] <= other
  {
    var n := MostShared(id, ids);
    var other :| other in ids && other != id && Shared(id, other) == n;
    assert id[..n] == other[..n];
  }

  // ---- resolving a `to` ----

  datatype Session = Session(id: string, name: Option<string>)

  /** A Claude Code session, which comes from another roster. */
  datatype ClaudeRow = ClaudeRow(sessionId: string, name: string, address: string)

  datatype Target = Pi(session: Session) | Claude(row: ClaudeRow)

  datatype Resolution =
    | Resolved(target: Target)
    | SeveralNamed
    | SeveralNamedClaude
    | SeveralWithPrefix
    | InBothRosters
    | NotConnected

  /** `lower` maps a name to lower case. */
  predicate MatchName(lower: string -> string, name: Option<string>, wanted: string) {
    name.Some? && name.value != "" && lower(name.value) == lower(wanted)
  }

  function FindId(sessions: seq<Session>, id: string): (r: Option<Session>)
    ensures r.Some? ==> r.value in sessions && r.value.id == id
    ensures r.None? ==> forall s :: s in sessions ==> s.id != id
  {
    if sessions == [] then None
    else if sessions[0].id == id then Some(sessions[0])
    else FindId(sessions[1..], id)
  }

  function Named(lower: string -> string, sessions: seq<Session>, wanted: string): seq<Session> {
    Filter((s: Session) => MatchName(lower, s.name, wanted), sessions)
  }

  function Prefixed(sessions: seq<Session>, wanted: string): seq<Session> {
    Filter((s: Session) => wanted <= s.id, sessions)
  }

  function ResolvePi(lower: string -> string, sessions: seq<Session>, to: string): Option<Resolution> {
    var byId := FindId(sessions, to);
    var byName := Named(lower, sessions, to);
    var byPrefix := Prefixed(sessions, to);
    if byId.Some? then Some(Resolved(Pi(byId.value)))
    else if |byName| > 1 then Some(SeveralNamed)
    else if |byName| == 1 then Some(Resolved(Pi(byName[0])))
    else if |byPrefix| == 1 then Some(Resolved(Pi(byPrefix[0])))
    else if |byPrefix| > 1 then Some(SeveralWithPrefix)
    else None
  }

  function ClaudeId(row: ClaudeRow): string {
    "claude:" + if row.sessionId != "" then row.sessionId else row.address
  }

  function FindClaude(rows: seq<ClaudeRow>, to: string): Option<ClaudeRow> {
    if rows == [] then None
    else if rows[0].sessionId == to || rows[0].address == to || ClaudeId(rows[0]) == to then Some(rows[0])
    else FindClaude(rows[1..], to)
  }

  function NamedClaude(lower: string -> string, rows: seq<ClaudeRow>, wanted: string): seq<ClaudeRow> {
    Filter((r: ClaudeRow) => MatchName(lower, Some(r.name), wanted), rows)
  }

  function ResolveClaude(lower: string -> string, rows: seq<ClaudeRow>, to: string): Option<Resolution> {
    var byId := FindClaude(rows, to);
    var byName := NamedClaude(lower, rows, to);
    var byPrefix := Filter((r: ClaudeRow) => to <= r.sessionId, rows);
    if byId.Some? then Some(Resolved(Claude(byId.value)))
    else if |byName| == 1 then Some(Resolved(Claude(byName[0])))
    else if |byName| > 1 then Some(SeveralNamedClaude)
    else if |byPrefix| == 1 then Some(Resolved(Claude(byPrefix[0])))
    else None
  }

  function Else(first: Option<Resolution>, second: Resolution): Resolution {
    if first.Some? then first.value else second
  }

  function ResolveTarget(lower: string -> string, to: string, sessions: seq<Session>,
                         claude: seq<ClaudeRow>): Resolution {
    var wanted := Trim(to);
    if "claude:" <= wanted then
      Else(ResolveClaude(lower, claude, wanted[7..]), Else(ResolveClaude(lower, claude, wanted), NotConnected))
    else if "pi:" <= wanted then Else(ResolvePi(lower, sessions, wanted[3..]), NotConnected)
    else if "uds:" <= wanted then Else(ResolveClaude(lower, claude, wanted), NotConnected)
    else
      var exact := FindId(sessions, wanted);
      if exact.Some? then Resolved(Pi(exact.value))
      else if Named(lower, sessions, wanted) != [] && NamedClaude(lower, claude, wanted) != [] then InBothRosters
      else Else(ResolvePi(lower, sessions, wanted), Else(ResolveClaude(lower, claude, wanted), NotConnected))
  }

  // ---- printed ids parse back ----

  function Ids(sessions: seq<Session>): seq<string> {
    seq(|sessions|, i requires 0 <= i < |sessions| => sessions[i].id)
  }

  /** No session but this one goes by the name. */
  ghost predicate OnlyName(lower: string -> string, sessions: seq<Session>, wanted: string, s: Session) {
    forall t :: t in sessions && MatchName(lower, t.name, wanted) ==> t == s
  }

  lemma {:induction false} FilterOnly<T(!new)>(p: T -> bool, s: seq<T>, x: T)
    requires Distinct(s) && x in s && p(x) && forall y :: y in s && p(y) ==> y == x
    ensures Filter(p, s) == [x]
  {
    var rest := s[1..];
    assert s == [s[0]] + rest;
    if s[0] == x {
      assert x !in rest;
      FilterNone(p, rest);
    } else {
      FilterOnly(p, rest, x);
    }
  }

  /** Only the session itself has an id with the printed prefix, or the prefix is a whole id. */
  lemma PrintedPrefix(sessions: seq<Session>, s: Session)
    requires Distinct(Ids(sessions)) && s in sessions
    ensures var p := ShortId(s.id, Ids(sessions));
      FindId(sessions, p) == (if p == s.id then Some(s) else None) && (p != s.id ==> Prefixed(sessions, p) == [s])
  {
    var ids := Ids(sessions);
    var p := ShortId(s.id, ids);
    ShortIdSeparates(s.id, ids);
    forall t | t in sessions
      ensures t.id in ids && (t.id == s.id ==> t == s)
    {
      var i :| 0 <= i < |sessions| && sessions[i] == t;
      var j :| 0 <= j < |sessions| && sessions[j] == s;
      assert ids[i] == t.id && ids[j] == s.id;
    }
    if p != s.id {
      forall i, j | 0 <= i < j < |sessions|
        ensures sessions[i] != sessions[j]
      {
        assert ids[i] != ids[j];
      }
      FilterOnly((t: Session) => p <= t.id, sessions, s);
    }
  }

  lemma NamedAtMost(lower: string -> string, sessions: seq<Session>, wanted: string, s: Session)
    requires Distinct(Ids(sessions)) && s in sessions && OnlyName(lower, sessions, wanted, s)
    ensures Named(lower, sessions, wanted) == (if MatchName(lower, s.name, wanted) then [s] else [])
  {
    forall i, j | 0 <= i < j < |sessions|
      ensures sessions[i] != sessions[j]
    {
      assert Ids(sessions)[i] != Ids(sessions)[j];
    }
    if MatchName(lower, s.name, wanted) {
      FilterOnly((t: Session) => MatchName(lower, t.name, wanted), sessions, s);
    } else {
      FilterNone((t: Session) => MatchName(lower, t.name, wanted), sessions);
    }
  }

  /**
    With distinct ids, the short id the roster prints for a session resolves to that session exactly
    when it is the session's whole id, or no other session is named like it.
   */
  lemma PrintedIdResolves(lower: string -> string, sessions: seq<Session>, s: Session)
    requires Distinct(Ids(sessions)) && s in sessions
    ensures var p := ShortId(s.id, Ids(sessions));
      ResolvePi(lower, sessions, p) == Some(Resolved(Pi(s))) <==> p == s.id || OnlyName(lower, sessions, p, s)
  {
    hide ShortId, FindId, Prefixed;
    var p := ShortId(s.id, Ids(sessions));
    PrintedPrefix(sessions, s);
    if p != s.id {
      var named := Named(lower, sessions, p);
      if OnlyName(lower, sessions, p, s) {
        NamedAtMost(lower, sessions, p, s);
        assert Prefixed(sessions, p) == [s];
      } else {
        var t :| t in sessions && MatchName(lower, t.name, p) && t != s;
        assert t in named;
        assert |named| == 1 ==> named[0] == t;
      }
    }
  }

  /** So does the short id with the roster named in front of it. */
  lemma PrintedIdWithPi(lower: string -> string, sessions: seq<Session>, claude: seq<ClaudeRow>, s: Session, to: string)
    requires Distinct(Ids(sessions)) && s in sessions
    requires Trim(to) == "pi:" + ShortId(s.id, Ids(sessions))
    ensures var p := ShortId(s.id, Ids(sessions));
      ResolveTarget(lower, to, sessions, claude) == Resolved(Pi(s)) <==> p == s.id || OnlyName(lower, sessions, p, s)
  {
    hide ShortId, ResolvePi, ResolveClaude, Trim;
    var p := ShortId(s.id, Ids(sessions));
    PrintedIdResolves(lower, sessions, s);
    assert Trim(to)[3..] == p && Trim(to)[0] == 'p';
    assert "claude:"[0] == 'c';
  }

  /** And the bare short id does, unless the session's own name and a Claude session's both read like it. */
  lemma PrintedIdAlone(lower: string -> string, sessions: seq<Session>, claude: seq<ClaudeRow>, s: Session, to: string)
    requires Distinct(Ids(sessions)) && s in sessions
    requires Trim(to) == ShortId(s.id, Ids(sessions))
    requires !("claude:" <= Trim(to)) && !("pi:" <= Trim(to)) && !("uds:" <= Trim(to))
    ensures var p := ShortId(s.id, Ids(sessions));
      ResolveTarget(lower, to, sessions, claude) == Resolved(Pi(s)) <==>
        p == s.id ||
        (OnlyName(lower, sessions, p, s) && (MatchName(lower, s.name, p) ==> NamedClaude(lower, claude, p) == []))
  {
    hide ShortId, FindId, Prefixed, Trim, ResolveClaude, NamedClaude, Named, MatchName;
    var p := ShortId(s.id, Ids(sessions));
    PrintedIdResolves(lower, sessions, s);
    PrintedPrefix(sessions, s);
    if p != s.id && OnlyName(lower, sessions, p, s) {
      NamedAtMost(lower, sessions, p, s);
    }
    SomeoneElseNamed(lower, sessions, p, s);
  }

  lemma SomeoneElseNamed(lower: string -> string, sessions: seq<Session>, wanted: string, s: Session)
    ensures !OnlyName(lower, sessions, wanted, s) ==> Named(lower, sessions, wanted) != []
  {
    if t :| t in sessions && MatchName(lower, t.name, wanted) && t != s {
      assert t in Named(lower, sessions, wanted);
    }
  }

  // ---- Claude sessions ----

  predicate Identifies(r: ClaudeRow, to: string) {
    r.sessionId == to || r.address == to || ClaudeId(r) == to
  }

  lemma {:induction false} FindClaudeOnly(rows: seq<ClaudeRow>, to: string, row: ClaudeRow)
    requires row in rows && Identifies(row, to) && forall r :: r in rows && Identifies(r, to) ==> r == row
    ensures FindClaude(rows, to) == Some(row)
  {
    if rows[0] != row {
      assert rows[0] in rows && rows == [rows[0]] + rows[1..];
      FindClaudeOnly(rows[1..], to, row);
    }
  }

  /** A Claude session's id in the roster resolves to it, as long as nothing else goes by what follows the prefix. */
  lemma ClaudeIdResolves(lower: string -> string, sessions: seq<Session>, claude: seq<ClaudeRow>, row: ClaudeRow,
                         to: string)
    requires row in claude && Trim(to) == ClaudeId(row)
    requires forall r :: r in claude && Identifies(r, ClaudeId(row)[7..]) ==> r == row
    ensures ResolveTarget(lower, to, sessions, claude) == Resolved(Claude(row))
  {
    var key := ClaudeId(row)[7..];
    assert key == if row.sessionId != "" then row.sessionId else row.address;
    assert "claude:" <= ClaudeId(row);
    FindClaudeOnly(claude, key, row);
    hide Trim, FindClaude, NamedClaude, ClaudeId;
  }

  // ---- what a name resolves to ----

  predicate GoesBy(lower: string -> string, name: string, wanted: string) {
    name != "" && lower(name) == lower(wanted)
  }

  /** The i-th session, or Claude session, has that name, or an id that begins so. */
  predicate NamedAt(lower: string -> string, sessions: seq<Session>, wanted: string, i: nat) {
    i < |sessions| && sessions[i].name.Some? && GoesBy(lower, sessions[i].name.value, wanted)
  }

  predicate BeginsAt(sessions: seq<Session>, wanted: string, i: nat) {
    i < |sessions| && wanted <= sessions[i].id
  }

  predicate ClaudeNamedAt(lower: string -> string, rows: seq<ClaudeRow>, wanted: string, i: nat) {
    i < |rows| && GoesBy(lower, rows[i].name, wanted)
  }

  predicate ClaudeBeginsAt(rows: seq<ClaudeRow>, wanted: string, i: nat) {
    i < |rows| && wanted <= rows[i].sessionId
  }

  /** A filter that keeps exactly one place keeps what stands there, and one that keeps two is longer. */
  lemma {:induction false} FilterPlaced<T(!new)>(p: T -> bool, s: seq<T>)
    ensures (forall i :: 0 <= i < |s| ==> !p(s[i])) ==> Filter(p, s) == []
    ensures forall i :: 0 <= i < |s| && p(s[i]) && (forall j :: 0 <= j < |s| && j != i ==> !p(s[j])) ==>
      Filter(p, s) == [s[i]]
    ensures forall i, j :: 0 <= i < j < |s| && p(s[i]) && p(s[j]) ==> |Filter(p, s)| > 1
  {
    if s != [] {
      FilterPlaced(p, s[1..]);
      assert forall k :: 0 < k < |s| ==> s[k] == s[1..][k - 1];
      forall i | 0 <= i < |s| && p(s[i]) && (forall j :: 0 <= j < |s| && j != i ==> !p(s[j]))
        ensures Filter(p, s) == [s[i]]
      {
        if i > 0 {
          assert s[1..][i - 1] == s[i] && !p(s[0]);
        }
      }
      forall i, j | 0 <= i < j < |s| && p(s[i]) && p(s[j])
        ensures |Filter(p, s)| > 1
      {
        assert s[1..][j - 1] == s[j] && s[j] in Filter(p, s[1..]);
      }
    }
  }

  lemma NamedMeans(lower: string -> string, sessions: seq<Session>, to: string, i: nat, j: nat)
    ensures NobodyNamed(lower, sessions, to) ==> Named(lower, sessions, to) == []
    ensures OnlyNamed(lower, sessions, to, i) ==> Named(lower, sessions, to) == [sessions[i]]
    ensures i < j && NamedAt(lower, sessions, to, i) && NamedAt(lower, sessions, to, j) ==>
      |Named(lower, sessions, to)| > 1
  {
    var p := (s: Session) => MatchName(lower, s.name, to);
    FilterPlaced(p, sessions);
    hide Filter;
    assert forall k: nat :: k < |sessions| ==> (p(sessions[k]) <==> NamedAt(lower, sessions, to, k));
  }

  lemma BeginsMeans(sessions: seq<Session>, to: string, i: nat, j: nat)
    ensures NobodyBegins(sessions, to) ==> Prefixed(sessions, to) == []
    ensures OnlyBegins(sessions, to, i) ==> Prefixed(sessions, to) == [sessions[i]]
    ensures i < j && BeginsAt(sessions, to, i) && BeginsAt(sessions, to, j) ==> |Prefixed(sessions, to)| > 1
  {
    var p := (s: Session) => to <= s.id;
    FilterPlaced(p, sessions);
    hide Filter;
    assert forall k: nat :: k < |sessions| ==> (p(sessions[k]) <==> BeginsAt(sessions, to, k));
  }

  /**
    Among pi sessions an id counts first, then a name, then the beginning of an id; a name or a beginning that
    fits several is refused, and one that fits nobody names nobody.
   */
  lemma PiMeans(lower: string -> string, sessions: seq<Session>, to: string, i: nat, j: nat)
    requires i < j
    ensures var r := ResolvePi(lower, sessions, to);
      if exists s :: s in sessions && s.id == to
      then r.Some? && r.value.Resolved? && IsSession(r.value.target, sessions, to)
      else
        && (NamedAt(lower, sessions, to, i) && NamedAt(lower, sessions, to, j) ==> r == Some(SeveralNamed))
        && (OnlyNamed(lower, sessions, to, i) ==> r == Some(Resolved(Pi(sessions[i]))))
        && (NobodyNamed(lower, sessions, to) ==>
              && (BeginsAt(sessions, to, i) && BeginsAt(sessions, to, j) ==> r == Some(SeveralWithPrefix))
              && (OnlyBegins(sessions, to, i) ==> r == Some(Resolved(Pi(sessions[i]))))
              && (NobodyBegins(sessions, to) ==> r == None))
  {
    NamedMeans(lower, sessions, to, i, j);
    BeginsMeans(sessions, to, i, j);
    hide Named, Prefixed, NamedAt, BeginsAt, NobodyNamed, NobodyBegins, OnlyNamed, OnlyBegins;
    NamedPlaces(lower, sessions, to, i);
  }

  lemma NamedPlaces(lower: string -> string, sessions: seq<Session>, to: string, i: nat)
    ensures OnlyNamed(lower, sessions, to, i) || OnlyBegins(sessions, to, i) ==> i < |sessions|
  {
  }

  predicate IsSession(t: Target, sessions: seq<Session>, id: string) {
    t.Pi? && t.session in sessions && t.session.id == id
  }

  ghost predicate OnlyNamed(lower: string -> string, sessions: seq<Session>, wanted: string, i: nat) {
    NamedAt(lower, sessions, wanted, i) && forall j: nat :: j != i ==> !NamedAt(lower, sessions, wanted, j)
  }

  ghost predicate NobodyNamed(lower: string -> string, sessions: seq<Session>, wanted: string) {
    forall j: nat :: !NamedAt(lower, sessions, wanted, j)
  }

  ghost predicate OnlyBegins(sessions: seq<Session>, wanted: string, i: nat) {
    BeginsAt(sessions, wanted, i) && forall j: nat :: j != i ==> !BeginsAt(sessions, wanted, j)
  }

  ghost predicate NobodyBegins(sessions: seq<Session>, wanted: string) {
    forall j: nat :: !BeginsAt(sessions, wanted, j)
  }

  ghost predicate OnlyClaudeNamed(lower: string -> string, rows: seq<ClaudeRow>, wanted: string, i: nat) {
    ClaudeNamedAt(lower, rows, wanted, i) && forall j: nat :: j != i ==> !ClaudeNamedAt(lower, rows, wanted, j)
  }

  ghost predicate OnlyClaudeBegins(rows: seq<ClaudeRow>, wanted: string, i: nat) {
    ClaudeBeginsAt(rows, wanted, i) && forall j: nat :: j != i ==> !ClaudeBeginsAt(rows, wanted, j)
  }

  ghost predicate NobodyClaudeNamed(lower: string -> string, rows: seq<ClaudeRow>, wanted: string) {
    forall j: nat :: !ClaudeNamedAt(lower, rows, wanted, j)
  }

  lemma ClaudeNamedMeans(lower: string -> string, rows: seq<ClaudeRow>, to: string, i: nat, j: nat)
    ensures NobodyClaudeNamed(lower, rows, to) <==> NamedClaude(lower, rows, to) == []
    ensures OnlyClaudeNamed(lower, rows, to, i) ==> i < |rows| && NamedClaude(lower, rows, to) == [rows[i]]
    ensures i < j && ClaudeNamedAt(lower, rows, to, i) && ClaudeNamedAt(lower, rows, to, j) ==>
      |NamedClaude(lower, rows, to)| > 1
  {
    var p := (r: ClaudeRow) => MatchName(lower, Some(r.name), to);
    FilterPlaced(p, rows);
    assert forall k: nat :: k < |rows| ==> (p(rows[k]) <==> ClaudeNamedAt(lower, rows, to, k));
    if k: nat :| ClaudeNamedAt(lower, rows, to, k) {
      assert rows[k] in NamedClaude(lower, rows, to);
    }
    hide Filter;
  }

  lemma ClaudeBeginsMeans(rows: seq<ClaudeRow>, to: string, i: nat, j: nat)
    ensures var byPrefix := Filter((r: ClaudeRow) => to <= r.sessionId, rows);
      && (OnlyClaudeBegins(rows, to, i) ==> i < |rows| && byPrefix == [rows[i]])
      && (i < j && ClaudeBeginsAt(rows, to, i) && ClaudeBeginsAt(rows, to, j) ==> |byPrefix| > 1)
      && ((forall k: nat :: !ClaudeBeginsAt(rows, to, k)) ==> byPrefix == [])
  {
    var p := (r: ClaudeRow) => to <= r.sessionId;
    FilterPlaced(p, rows);
    assert forall k: nat :: k < |rows| ==> (p(rows[k]) <==> ClaudeBeginsAt(rows, to, k));
    hide Filter;
  }

  lemma {:induction false} ClaudeFound(rows: seq<ClaudeRow>, to: string)
    ensures FindClaude(rows, to).Some? <==> exists r :: r in rows && Identifies(r, to)
    ensures FindClaude(rows, to).Some? ==>
      FindClaude(rows, to).value in rows && Identifies(FindClaude(rows, to).value, to)
  {
    if rows != [] {
      ClaudeFound(rows[1..], to);
      assert forall r :: r in rows <==> r == rows[0] || r in rows[1..];
      assert Identifies(rows[0], to) <==> rows[0].sessionId == to || rows[0].address == to || ClaudeId(rows[0]) == to;
      hide Identifies;
    }
  }

  /**
    Among Claude sessions an id or an address counts first, then a name, then the beginning of an id; a name that
    fits several is refused, a beginning that fits several or nobody names nobody.
   */
  lemma ClaudeMeans(lower: string -> string, rows: seq<ClaudeRow>, to: string, i: nat, j: nat)
    requires i < j
    ensures var r := ResolveClaude(lower, rows, to);
      if exists row :: row in rows && Identifies(row, to)
      then r.Some? && r.value.Resolved? && r.value.target.Claude? && r.value.target.row in rows
           && Identifies(r.value.target.row, to)
      else
        && (ClaudeNamedAt(lower, rows, to, i) && ClaudeNamedAt(lower, rows, to, j) ==> r == Some(SeveralNamedClaude))
        && (OnlyClaudeNamed(lower, rows, to, i) ==> i < |rows| && r == Some(Resolved(Claude(rows[i]))))
        && (NobodyClaudeNamed(lower, rows, to) ==>
              && (ClaudeBeginsAt(rows, to, i) && ClaudeBeginsAt(rows, to, j) ==> r == None)
              && (OnlyClaudeBegins(rows, to, i) ==> i < |rows| && r == Some(Resolved(Claude(rows[i]))))
              && ((forall k: nat :: !ClaudeBeginsAt(rows, to, k)) ==> r == None))
  {
    ClaudeFound(rows, to);
    ClaudeNamedMeans(lower, rows, to, i, j);
    ClaudeBeginsMeans(rows, to, i, j);
    hide FindClaude, NamedClaude, ClaudeNamedAt, ClaudeBeginsAt, NobodyClaudeNamed, OnlyClaudeNamed, OnlyClaudeBegins,
      Filter, Identifies;
  }

  /** The first of two answers that is one, and else that nobody of that name is connected. */
  function FirstAnswer(a: Option<Resolution>, b: Option<Resolution>): Resolution {
    if a.Some? then a.value else if b.Some? then b.value else NotConnected
  }

  /** A roster named in front narrows the search to it. */
  lemma BehindClaude(lower: string -> string, name: string, to: string, sessions: seq<Session>, claude: seq<ClaudeRow>)
    requires Trim(to) == "claude:" + name
    ensures ResolveTarget(lower, to, sessions, claude) ==
      FirstAnswer(ResolveClaude(lower, claude, name), ResolveClaude(lower, claude, "claude:" + name))
  {
    assert ("claude:" + name)[7..] == name;
    hide Trim, ResolveClaude, ResolvePi, Named, NamedClaude, FindId;
  }

  lemma BehindPi(lower: string -> string, name: string, to: string, sessions: seq<Session>, claude: seq<ClaudeRow>)
    requires Trim(to) == "pi:" + name
    ensures ResolveTarget(lower, to, sessions, claude) == FirstAnswer(ResolvePi(lower, sessions, name), None)
  {
    assert ("pi:" + name)[3..] == name && ("pi:" + name)[0] == 'p';
    hide Trim, ResolveClaude, ResolvePi, Named, NamedClaude, FindId;
  }

  lemma BehindUds(lower: string -> string, name: string, to: string, sessions: seq<Session>, claude: seq<ClaudeRow>)
    requires Trim(to) == "uds:" + name
    ensures ResolveTarget(lower, to, sessions, claude) == FirstAnswer(ResolveClaude(lower, claude, "uds:" + name), None)
  {
    assert ("uds:" + name)[0] == 'u';
    hide Trim, ResolveClaude, ResolvePi, Named, NamedClaude, FindId;
  }

  lemma BareSteps(lower: string -> string, to: string, sessions: seq<Session>, claude: seq<ClaudeRow>)
    requires !("claude:" <= Trim(to)) && !("pi:" <= Trim(to)) && !("uds:" <= Trim(to))
    ensures var exact := FindId(sessions, Trim(to));
      ResolveTarget(lower, to, sessions, claude) ==
        if exact.Some? then Resolved(Pi(exact.value))
        else if Named(lower, sessions, Trim(to)) != [] && NamedClaude(lower, claude, Trim(to)) != [] then InBothRosters
        else FirstAnswer(ResolvePi(lower, sessions, Trim(to)), ResolveClaude(lower, claude, Trim(to)))
  {
    hide Trim, Named, NamedClaude, ResolveClaude, ResolvePi, FindId;
  }

  lemma ExactFirst(lower: string -> string, sessions: seq<Session>, to: string)
    ensures FindId(sessions, to).Some? ==>
      ResolvePi(lower, sessions, to) == Some(Resolved(Pi(FindId(sessions, to).value)))
  {
    hide Named, Prefixed, FindId;
  }

  /**
    Without one, an exact pi id counts first, a name that is in both rosters is refused, and pi sessions come
    before Claude sessions.
   */
  lemma BareNameMeans(lower: string -> string, to: string, sessions: seq<Session>, claude: seq<ClaudeRow>)
    requires !("claude:" <= Trim(to)) && !("pi:" <= Trim(to)) && !("uds:" <= Trim(to))
    ensures var r, name := ResolveTarget(lower, to, sessions, claude), Trim(to);
      if (forall s :: s in sessions ==> s.id != name) && !NobodyNamed(lower, sessions, name)
         && !NobodyClaudeNamed(lower, claude, name)
      then r == InBothRosters
      else r == FirstAnswer(ResolvePi(lower, sessions, name), ResolveClaude(lower, claude, name))
  {
    hide Named, NamedClaude, ResolveClaude, NobodyNamed, NobodyClaudeNamed, Prefixed, OnlyNamed, OnlyClaudeNamed,
      NamedAt, ClaudeNamedAt, ResolvePi, ResolveTarget;
    var name := Trim(to);
    NamedMeans(lower, sessions, name, 0, 0);
    ClaudeNamedMeans(lower, claude, name, 0, 0);
    SomebodyNamed(lower, sessions, name);
    BareSteps(lower, to, sessions, claude);
    ExactFirst(lower, sessions, name);
  }

  lemma SomebodyNamed(lower: string -> string, sessions: seq<Session>, wanted: string)
    ensures NobodyNamed(lower, sessions, wanted) || Named(lower, sessions, wanted) != []
  {
    if k: nat :| NamedAt(lower, sessions, wanted, k) {
      assert sessions[k] in Named(lower, sessions, wanted);
    }
  }
}
