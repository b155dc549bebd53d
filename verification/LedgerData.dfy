/**
  What the permission ledger keeps: denials with numbered ids, grants by key, and the keys of
  rejected calls. A call's input stands for its canonical JSON text.
 */
module LedgerData {
  import opened Prelude
  import opened Sorting
  import DirectoryProposal

  type Directory = DirectoryProposal.Directory

  /** How many denials are kept, newest first. */
  const DENIAL_LIMIT := 50

  datatype Owner = Owner(sessionId: string, cwd: Option<string>)

  datatype Response = Denied | Timeout | Unasked

  datatype Review = Review(eligible: bool, response: Response)

  datatype DenialState = Open | Approved | Dismissed

  datatype Blocked = Blocked(toolName: string, input: string, cwd: Option<string>, owner: Option<Owner>,
                             review: Option<Review>,
                             directories: seq<Directory>, incomplete: bool, policyDenied: bool)

  datatype Denial = Denial(id: string, at: int, call: Blocked, state: DenialState)

  datatype Scope = Scope(key: string, text: string)

  datatype Grant = Grant(key: string, toolName: string, input: string, at: int, scope: Option<Scope>,
                         directory: Option<Directory>, owner: Option<Owner>, savedFor: Option<string>)

  datatype PermissionRecord = PermissionRecord(rejected: Option<seq<string>>, denials: Option<seq<Denial>>,
                                               grants: Option<seq<Grant>>)

  datatype Ledger = Ledger(denials: seq<Denial>, grants: seq<Grant>, nextId: nat, rejected: seq<string>)

  // ---- ids ----

  function Digit(n: nat): (c: char)
    requires n < 10
    ensures IsDigit(c) && DigitValue(c) == n
  {
    "0123456789"[n]
  }

  predicate IsDigit(c: char) {
    '0' <= c <= '9'
  }

  function DigitValue(c: char): nat
    requires IsDigit(c)
  {
    c as int - '0' as int
  }

  function Decimal(n: nat): (s: string)
    ensures s != ""
  {
    if n < 10 then [Digit(n)] else Decimal(n / 10) + [Digit(n % 10)]
  }

  function ValueOf(s: string): nat
    requires forall i :: 0 <= i < |s| ==> IsDigit(s[i])
  {
    if s == "" then 0 else 10 * ValueOf(s[..|s| - 1]) + DigitValue(s[|s| - 1])
  }

  /** `Number(s) || 0`, for a text of digits; any other text counts as 0. */
  function NumberOf(s: string): nat {
    if forall i :: 0 <= i < |s| ==> IsDigit(s[i]) then ValueOf(s) else 0
  }

  function Id(n: nat): string {
    ['d'] + Decimal(n)
  }

  function IdNumber(id: string): nat {
    if id == "" then 0 else NumberOf(id[1..])
  }

  lemma {:induction false} DecimalValue(n: nat)
    ensures forall i :: 0 <= i < |Decimal(n)| ==> IsDigit(Decimal(n)[i])
    ensures ValueOf(Decimal(n)) == n
  {
    if n < 10 {
      assert Decimal(n)[..0] == "";
    } else {
      DecimalValue(n / 10);
      assert Decimal(n)[..|Decimal(n)| - 1] == Decimal(n / 10);
    }
  }

  /** An id reads back as its number, so different numbers have different ids. */
  lemma IdReadsBack(n: nat)
    ensures IdNumber(Id(n)) == n
  {
    DecimalValue(n);
    assert Id(n)[1..] == Decimal(n);
  }

  /** The newest denial has the number before the next id, and each older one the number before. */
  ghost predicate Numbered(l: Ledger) {
    && l.nextId >= 1 && |l.denials| == (if l.nextId - 1 < DENIAL_LIMIT then l.nextId - 1 else DENIAL_LIMIT)
    && forall i :: 0 <= i < |l.denials| ==> l.denials[i].id == Id(l.nextId - 1 - i)
  }

  function Highest(denials: seq<Denial>): (n: nat)
    ensures forall i :: 0 <= i < |denials| ==> IdNumber(denials[i].id) <= n
    ensures n == 0 || exists i :: 0 <= i < |denials| && IdNumber(denials[i].id) == n
  {
    if denials == [] then 0
    else
      var n := Highest(denials[1..]);
      var first := IdNumber(denials[0].id);
      assert n > 0 ==> exists i :: 0 <= i < |denials| && IdNumber(denials[i].id) == n by {
        if n > 0 {
          var i :| 0 <= i < |denials[1..]| && IdNumber(denials[1..][i].id) == n;
          assert denials[i + 1] == denials[1..][i];
        }
      }
      if n < first then first else n
  }

  lemma NumberedHighest(l: Ledger)
    requires Numbered(l)
    ensures Highest(l.denials) == l.nextId - 1
  {
    hide IdNumber, Id;
    forall i | 0 <= i < |l.denials|
      ensures IdNumber(l.denials[i].id) == l.nextId - 1 - i
    {
      IdReadsBack(l.nextId - 1 - i);
    }
  }

  // ---- grants by key ----

  predicate DistinctKeys(gs: seq<Grant>) {
    forall i, j :: 0 <= i < j < |gs| ==> gs[i].key != gs[j].key
  }

  predicate HasGrant(gs: seq<Grant>, key: string) {
    exists i :: 0 <= i < |gs| && gs[i].key == key
  }

  /** Setting a key of an insertion-ordered map: in place if it is there, at the end otherwise. */
  function Put(gs: seq<Grant>, g: Grant): (r: seq<Grant>) {
    if gs == [] then [g] else if gs[0].key == g.key then [g] + gs[1..] else [gs[0]] + Put(gs[1..], g)
  }

  function Without(gs: seq<Grant>, drop: Grant -> bool): seq<Grant> {
    Filter((g: Grant) => !drop(g), gs)
  }

  ghost function Table(gs: seq<Grant>): map<string, Grant>
    requires DistinctKeys(gs)
  {
    map g | g in gs :: g.key := g
  }

  lemma {:induction false} PutKeys(gs: seq<Grant>, g: Grant)
    ensures forall x :: x in Put(gs, g) ==> x == g || (x in gs && (DistinctKeys(gs) ==> x.key != g.key))
    ensures g in Put(gs, g) && forall x :: x in gs && x.key != g.key ==> x in Put(gs, g)
    ensures DistinctKeys(gs) ==> DistinctKeys(Put(gs, g))
  {
    if gs != [] {
      var rest := gs[1..];
      assert gs == [gs[0]] + rest;
      PutKeys(rest, g);
      if DistinctKeys(gs) {
        assert DistinctKeys(rest) && forall x :: x in rest ==> x.key != gs[0].key;
        assert gs[0].key != g.key ==> forall x :: x in Put(rest, g) ==> x.key != gs[0].key;
      }
    }
  }

  /** It sets exactly that key. */
  lemma PutTable(gs: seq<Grant>, g: Grant)
    requires DistinctKeys(gs)
    ensures DistinctKeys(Put(gs, g)) && Table(Put(gs, g)) == Table(gs)[g.key := g]
  {
    PutKeys(gs, g);
    var t := Table(Put(gs, g));
    forall k
      ensures k in t <==> k in Table(gs) || k == g.key
      ensures k in t ==> t[k] == Table(gs)[g.key := g][k]
    {
      assert k in t <==> exists x :: x in Put(gs, g) && x.key == k;
    }
  }

  lemma {:induction false} FilterKeys(gs: seq<Grant>, p: Grant -> bool)
    requires DistinctKeys(gs)
    ensures DistinctKeys(Filter(p, gs))
  {
    if gs != [] {
      var rest, kept := gs[1..], Filter(p, gs[1..]);
      FilterKeys(rest, p);
      forall j | 0 <= j < |kept|
        ensures kept[j].key != gs[0].key
      {
        assert kept[j] in rest;
      }
      assert Filter(p, gs) == if p(gs[0]) then [gs[0]] + kept else kept;
    }
  }

  /** A map made of a list of grants: a later grant replaces an earlier one of its key. */
  function MapOf(gs: seq<Grant>): seq<Grant> {
    if gs == [] then [] else Put(MapOf(gs[..|gs| - 1]), gs[|gs| - 1])
  }

  lemma {:induction false} PutNew(gs: seq<Grant>, g: Grant)
    requires forall x :: x in gs ==> x.key != g.key
    ensures Put(gs, g) == gs + [g]
  {
    if gs != [] {
      PutNew(gs[1..], g);
      assert gs == [gs[0]] + gs[1..];
    }
  }

  lemma {:induction false} MapOfDistinct(gs: seq<Grant>)
    requires DistinctKeys(gs)
    ensures MapOf(gs) == gs
  {
    if gs != [] {
      var init, last := gs[..|gs| - 1], gs[|gs| - 1];
      MapOfDistinct(init);
      PutNew(init, last);
      assert gs == init + [last];
    }
  }

  lemma {:induction false} MapOfKeys(gs: seq<Grant>)
    ensures DistinctKeys(MapOf(gs))
  {
    if gs != [] {
      MapOfKeys(gs[..|gs| - 1]);
      PutKeys(MapOf(gs[..|gs| - 1]), gs[|gs| - 1]);
    }
  }

  /** Nothing later in the list has the grant's key. */
  ghost predicate LastAt(gs: seq<Grant>, i: nat, g: Grant) {
    i < |gs| && gs[i] == g && forall j :: i < j < |gs| ==> gs[j].key != g.key
  }

  lemma LastNext(gs: seq<Grant>, i: nat, g: Grant)
    requires gs != []
    ensures var n := |gs| - 1;
      LastAt(gs, i, g) <==> if i == n then gs[n] == g else LastAt(gs[..n], i, g) && gs[n].key != g.key
  {
    var n := |gs| - 1;
    assert forall j :: 0 <= j < n ==> gs[..n][j] == gs[j];
  }

  /** The grant that is kept under a key is the last one of the list. */
  lemma {:induction false} MapOfLast(gs: seq<Grant>, g: Grant)
    ensures g in MapOf(gs) <==> exists i: nat :: LastAt(gs, i, g)
  {
    if gs != [] {
      var n := |gs| - 1;
      MapOfLast(gs[..n], g);
      PutKeys(MapOf(gs[..n]), gs[n]);
      MapOfKeys(gs[..n]);
      hide Put, DistinctKeys, LastAt;
      LastNext(gs, n, g);
      if i: nat :| LastAt(gs, i, g) {
        LastNext(gs, i, g);
      }
      if i: nat :| LastAt(gs[..n], i, g) {
        LastBelow(gs[..n], i, g);
        LastNext(gs, i, g);
      }
    }
  }

  lemma LastBelow(gs: seq<Grant>, i: nat, g: Grant)
    requires LastAt(gs, i, g)
    ensures i < |gs|
  {
  }

  function NewestFirst(gs: seq<Grant>): (r: seq<Grant>)
    ensures forall i, j :: 0 <= i < j < |r| ==> r[i].at >= r[j].at
  {
    SortBy((g: Grant) => -g.at, gs)
  }

  /** Listing the grants newest first only reorders them. */
  lemma NewestFirstTable(gs: seq<Grant>)
    requires DistinctKeys(gs)
    ensures DistinctKeys(NewestFirst(gs)) && Table(NewestFirst(gs)) == Table(gs)
  {
    SortCount((g: Grant) => -g.at, gs);
    var sorted := NewestFirst(gs);
    DistinctByCount(gs);
    CountDistinct(sorted, gs);
  }

  /** Grants made at the same time are listed in the order they were made. */
  lemma NewestFirstStable(gs: seq<Grant>, at: int)
    ensures OfKey((g: Grant) => -g.at, -at, NewestFirst(gs)) == OfKey((g: Grant) => -g.at, -at, gs)
  {
    SortStable((g: Grant) => -g.at, gs, -at);
  }

  lemma {:induction false} DistinctByCount(gs: seq<Grant>)
    requires DistinctKeys(gs)
    ensures forall x :: multiset(gs)[x] <= 1
  {
    if gs != [] {
      var rest := gs[1..];
      assert gs == [gs[0]] + rest;
      DistinctByCount(rest);
      assert gs[0] !in rest;
    }
  }

  lemma CountTwice(a: seq<Grant>, i: nat, j: nat)
    requires i < j < |a| && a[i] == a[j]
    ensures multiset(a)[a[j]] >= 2
  {
    assert a == a[..j] + [a[j]] + a[j + 1..];
    assert a[i] in a[..j];
  }

  lemma CountDistinct(a: seq<Grant>, b: seq<Grant>)
    requires multiset(a) == multiset(b) && DistinctKeys(b) && forall x :: multiset(b)[x] <= 1
    ensures DistinctKeys(a)
  {
    forall i, j | 0 <= i < j < |a|
      ensures a[i].key != a[j].key
    {
      assert a[i] in multiset(b) && a[j] in multiset(b);
      if a[i] == a[j] {
        CountTwice(a, i, j);
      }
    }
  }
}
