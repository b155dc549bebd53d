/** Which rows the widget has, what its heading and summary count adds up, and which work it draws first. */
module TodoWidgetCounts {
  import opened Prelude
  import opened Sorting
  import opened TodoState
  import opened TodoInvariant
  import opened TodoWidget

  // ---- the heading ----

  lemma {:induction false} StatusesAdd(tasks: seq<Task>)
    requires forall t :: t in tasks ==> t.Live()
    ensures |Filter((t: Task) => t.status == Completed, tasks)| + |Filter((t: Task) => t.status == InProgress, tasks)|
          + |Filter((t: Task) => t.status == Pending, tasks)| == |tasks|
  {
    if tasks != [] {
      StatusesAdd(tasks[1..]);
      assert tasks[0].Live() by {
        assert tasks[0] in tasks;
      }
    }
  }

  /** The completed, active and pending tasks of the heading are all the live tasks. */
  lemma HeadingAdds(tasks: seq<Task>, visible: seq<Row>)
    ensures var h := HeadingFor(tasks, visible); h.done + h.active + h.pending == h.total
  {
    StatusesAdd(Filter((t: Task) => t.Live() && !t.IsGroup(), tasks));
  }

  // ---- rows are drawn once ----

  lemma {:induction false} FilterCount<T(!new)>(p: T -> bool, s: seq<T>)
    ensures multiset(Filter(p, s)) <= multiset(s)
  {
    if s != [] {
      FilterCount(p, s[1..]);
      assert s == [s[0]] + s[1..];
    }
  }

  lemma {:induction false} FilterSplits<T(!new)>(p: T -> bool, q: T -> bool, s: seq<T>)
    requires forall x :: x in s ==> (p(x) <==> !q(x))
    ensures |Filter(p, s)| + |Filter(q, s)| == |s|
  {
    if s != [] {
      FilterSplits(p, q, s[1..]);
    }
  }

  lemma {:induction false} CountInDistinct<T>(s: seq<T>, x: T)
    requires Distinct(s)
    ensures multiset(s)[x] <= 1
  {
    if s != [] {
      CountInDistinct(s[1..], x);
      assert s == [s[0]] + s[1..];
      if x == s[0] {
        assert x !in s[1..];
      }
    }
  }

  lemma {:induction false} DistinctByCount<T(!new)>(s: seq<T>)
    requires forall x :: multiset(s)[x] <= 1
    ensures Distinct(s)
  {
    if s != [] {
      var rest := s[1..];
      assert s == [s[0]] + rest;
      forall x
        ensures multiset(rest)[x] <= 1
      {
        assert multiset(s)[x] <= 1;
      }
      DistinctByCount(rest);
      assert multiset(s)[s[0]] <= 1;
      assert s[0] !in multiset(rest);
    }
  }

  lemma SameLength<T>(a: seq<T>, b: seq<T>)
    requires Distinct(a) && Distinct(b) && forall x :: x in a <==> x in b
    ensures |a| == |b|
  {
    SetSize(a);
    SetSize(b);
    assert (set x | x in a) == (set x | x in b);
  }

  /** Leaving out what a selection holds leaves as many as it does not. */
  lemma RestCount<T(!new)>(all: seq<T>, selected: seq<T>)
    requires Distinct(all) && multiset(selected) <= multiset(all)
    ensures |Filter((x: T) => x !in selected, all)| + |selected| == |all|
  {
    var inside := Filter((x: T) => x in selected, all);
    FilterSplits((x: T) => x !in selected, (x: T) => x in selected, all);
    FilterDistinct((x: T) => x in selected, all);
    forall x
      ensures multiset(selected)[x] <= 1
    {
      CountInDistinct(all, x);
    }
    DistinctByCount(selected);
    forall x | x in selected
      ensures x in inside
    {
      assert x in multiset(selected) && x in multiset(all);
    }
    SameLength(inside, selected);
  }

  // ---- the rows of the widget ----

  lemma UniqueDistinct(tasks: seq<Task>)
    requires UniqueIds(tasks)
    ensures Distinct(tasks)
  {
  }

  lemma FirstBlock(tasks: seq<Task>, v: View, roots: seq<Task>)
    requires roots != []
    ensures BlockOf(tasks, v, roots[0]).Some? ==> BlockOf(tasks, v, roots[0]).value.root == roots[0]
  {
  }

  lemma {:induction false} RootsDistinct(tasks: seq<Task>, v: View, roots: seq<Task>)
    requires Distinct(roots)
    ensures DistinctRoots(BlocksOf(tasks, v, roots))
  {
    hide BlockOf;
    if roots != [] {
      var rest := BlocksOf(tasks, v, roots[1..]);
      RootsDistinct(tasks, v, roots[1..]);
      forall i | 0 <= i < |rest|
        ensures rest[i].root != roots[0]
      {
        assert rest[i] in rest && rest[i].root in roots[1..];
      }
      var first := BlockOf(tasks, v, roots[0]);
      FirstBlock(tasks, v, roots);
      assert BlocksOf(tasks, v, roots) == (if first.Some? then [first.value] else []) + rest;
      hide BlocksOf;
    }
  }

  ghost predicate DistinctRoots(bs: seq<Block>) {
    forall i, j :: 0 <= i < j < |bs| ==> bs[i].root != bs[j].root
  }

  lemma BlockRowsDistinct(b: Block)
    requires Distinct(b.children)
    ensures Distinct(RowsOf(b))
  {
  }

  /** The root that a row is drawn under. */
  function RootOf(r: Row): Task {
    if r.parent.Some? then r.parent.value else r.task
  }

  lemma {:induction false} AllRowsDistinct(bs: seq<Block>)
    requires DistinctRoots(bs) && forall i :: 0 <= i < |bs| ==> Distinct(bs[i].children)
    ensures Distinct(AllRows(bs))
    ensures forall r :: r in AllRows(bs) ==> exists i :: 0 <= i < |bs| && RootOf(r) == bs[i].root
  {
    if bs != [] {
      var rest := bs[1..];
      AllRowsDistinct(rest);
      AllRowsCons(bs);
      BlockRowsDistinct(bs[0]);
      var first, others := RowsOf(bs[0]), AllRows(rest);
      assert forall r :: r in first ==> RootOf(r) == bs[0].root;
      forall r | r in others
        ensures RootOf(r) != bs[0].root && exists i :: 0 <= i < |bs| && RootOf(r) == bs[i].root
      {
        var i :| 0 <= i < |rest| && RootOf(r) == rest[i].root;
        assert bs[i + 1] == rest[i];
      }
      DistinctAppend(first, others);
    }
  }

  lemma DistinctAppend<T>(a: seq<T>, b: seq<T>)
    requires Distinct(a) && Distinct(b) && forall x :: x in a ==> x !in b
    ensures Distinct(a + b)
  {
    forall i, j | 0 <= i < j < |a + b|
      ensures (a + b)[i] != (a + b)[j]
    {
      if i < |a| && j >= |a| {
        assert a[i] in a && b[j - |a|] in b;
      }
    }
  }

  lemma AllRowsCons(bs: seq<Block>)
    requires bs != []
    ensures AllRows(bs) == RowsOf(bs[0]) + AllRows(bs[1..])
  {
    var rows := seq(|bs|, i requires 0 <= i < |bs| => RowsOf(bs[i]));
    assert rows[1..] == seq(|bs| - 1, i requires 0 <= i < |bs| - 1 => RowsOf(bs[1..][i]));
  }

  lemma OfferedCons(tasks: seq<Task>, bs: seq<Block>, overflow: bool)
    requires bs != []
    ensures Flatten(OfferedAll(tasks, bs, overflow)) ==
      Offered(tasks, bs[0], overflow) + Flatten(OfferedAll(tasks, bs[1..], overflow))
  {
    var offers := OfferedAll(tasks, bs, overflow);
    assert offers[1..] == OfferedAll(tasks, bs[1..], overflow);
  }

  /** A block offers only rows of its own, each at most as often as it has it. */
  lemma OfferedWithin(tasks: seq<Task>, b: Block, overflow: bool)
    ensures multiset(Offered(tasks, b, overflow)) <= multiset(RowsOf(b))
  {
    var children := SortBy((t: Task) => Rank(tasks, t), b.children);
    SortCount((t: Task) => Rank(tasks, t), b.children);
    var sorted := RowsOf(b.(children := children));
    RowsCount(b, children);
    FilterCount((r: Row) => r.task.status != Completed, sorted);
  }

  lemma RowsCount(b: Block, children: seq<Task>)
    requires multiset(children) == multiset(b.children)
    ensures multiset(RowsOf(b.(children := children))) == multiset(RowsOf(b))
  {
    ChildRowsCount(b.root, children, b.children);
    assert RowsOf(b) == [Row(b.root, None)] + ChildRows(b.root, b.children);
    assert RowsOf(b.(children := children)) == [Row(b.root, None)] + ChildRows(b.root, children);
  }

  function ChildRows(root: Task, children: seq<Task>): seq<Row> {
    seq(|children|, i requires 0 <= i < |children| => Row(children[i], Some(root)))
  }

  lemma {:induction false} ChildRowsCount(root: Task, a: seq<Task>, b: seq<Task>)
    requires multiset(a) == multiset(b)
    ensures multiset(ChildRows(root, a)) == multiset(ChildRows(root, b))
  {
    forall r: Row
      ensures multiset(ChildRows(root, a))[r] == multiset(ChildRows(root, b))[r]
    {
      ChildRowCount(root, a, r);
      ChildRowCount(root, b, r);
    }
  }

  lemma {:induction false} ChildRowCount(root: Task, children: seq<Task>, r: Row)
    ensures multiset(ChildRows(root, children))[r] == if r.parent == Some(root) then multiset(children)[r.task] else 0
  {
    if children != [] {
      ChildRowCount(root, children[1..], r);
      assert children == [children[0]] + children[1..];
      assert ChildRows(root, children) == [Row(children[0], Some(root))] + ChildRows(root, children[1..]);
    }
  }

  lemma {:induction false} OffersWithin(tasks: seq<Task>, bs: seq<Block>, overflow: bool)
    ensures multiset(Flatten(OfferedAll(tasks, bs, overflow))) <= multiset(AllRows(bs))
  {
    if bs != [] {
      OffersWithin(tasks, bs[1..], overflow);
      OfferedWithin(tasks, bs[0], overflow);
      OfferedCons(tasks, bs, overflow);
      AllRowsCons(bs);
      hide Offered, Flatten, AllRows, RowsOf, OfferedAll;
    }
  }

  lemma {:induction false} InsertedRows(key: Block -> int, b: Block, bs: seq<Block>)
    requires SortedBy(key, bs)
    ensures multiset(AllRows(Insert(key, b, bs))) == multiset(RowsOf(b)) + multiset(AllRows(bs))
  {
    hide RowsOf, AllRows;
    var r := Insert(key, b, bs);
    AllRowsCons(r);
    if bs == [] || key(b) <= key(bs[0]) {
      assert r[1..] == bs;
    } else {
      InsertedRows(key, b, bs[1..]);
      assert r[1..] == Insert(key, b, bs[1..]);
      AllRowsCons(bs);
    }
  }

  /** Ordering the blocks reorders their rows only. */
  lemma {:induction false} OrderedRows(key: Block -> int, bs: seq<Block>)
    ensures multiset(AllRows(SortBy(key, bs))) == multiset(AllRows(bs))
  {
    if bs != [] {
      OrderedRows(key, bs[1..]);
      InsertedRows(key, bs[0], SortBy(key, bs[1..]));
      AllRowsCons(bs);
    }
  }

  lemma BlocksChildren(tasks: seq<Task>, v: View)
    requires UniqueIds(tasks)
    ensures var bs := Blocks(tasks, v);
      DistinctRoots(bs) && forall i :: 0 <= i < |bs| ==> Distinct(bs[i].children)
  {
    UniqueDistinct(tasks);
    FilterDistinct((t: Task) => t.Live() && t.parentId.None?, tasks);
    RootsDistinct(tasks, v, Filter((t: Task) => t.Live() && t.parentId.None?, tasks));
    var bs := Blocks(tasks, v);
    forall i | 0 <= i < |bs|
      ensures Distinct(bs[i].children)
    {
      assert bs[i] in bs && BlockOf(tasks, v, bs[i].root) == Some(bs[i]);
      var id := bs[i].root.id;
      FilterDistinct((t: Task) => t.parentId == Some(id) && t.Live(), tasks);
      FilterDistinct((t: Task) => Shown(v, t), Children(tasks, id));
    }
  }

  /** How many rows the last line counts. */
  function Counted(line: Line): nat {
    match line
    case MoreTasks(unfinished, completed) => unfinished + completed
    case MoreGroups(groups) => groups
    case _ => 0
  }

  /** How many of some rows are tasks, and how many are group headers. */
  function TaskRows(rows: seq<Row>): nat {
    |Filter((r: Row) => !r.task.IsGroup(), rows)|
  }

  function HeaderRows(rows: seq<Row>): nat {
    |Filter((r: Row) => r.task.IsGroup(), rows)|
  }

  /** Every visible row is drawn or left out, and none is drawn twice. */
  lemma DrawnOnce(tasks: seq<Task>, v: View)
    requires UniqueIds(tasks)
    ensures var visible := AllRows(Blocks(tasks, v));
      var drawn := Drawn(tasks, v);
      && Distinct(visible) && multiset(drawn) <= multiset(visible)
      && |LeftOut(visible, drawn)| + |drawn| == |visible|
  {
    var bs := Blocks(tasks, v);
    BlocksChildren(tasks, v);
    AllRowsDistinct(bs);
    var ordered := Ordered(tasks, bs);
    OrderedRows((b: Block) => Rank(tasks, b.root), bs);
    OffersWithin(tasks, ordered, Overflows(tasks, v));
    PrefixCount(Flatten(OfferedAll(tasks, ordered, Overflows(tasks, v))), Room(tasks, v));
    RestCount(AllRows(bs), Drawn(tasks, v));
    hide Blocks, Ordered, OfferedAll, AllRows, Drawn, Distinct;
  }

  /** The last line counts the tasks left out if there are any, and else the headers left out. */
  lemma SummaryCounts(visible: seq<Row>, drawn: seq<Row>)
    ensures var rest := LeftOut(visible, drawn);
      && TaskRows(rest) + HeaderRows(rest) == |rest|
      && Counted(SummaryFor(visible, drawn)) == if TaskRows(rest) > 0 then TaskRows(rest) else HeaderRows(rest)
  {
    FilterSplits((r: Row) => !r.task.IsGroup(), (r: Row) => r.task.IsGroup(), LeftOut(visible, drawn));
  }

  /**
    Under overflow, what the last line counts and the rows drawn add up to the visible rows exactly
    when the rows left out are not both tasks and group headers: next to tasks, headers go uncounted.
   */
  lemma NothingUncounted(tasks: seq<Task>, v: View)
    requires UniqueIds(tasks)
    ensures var visible := AllRows(Blocks(tasks, v));
      var drawn := Drawn(tasks, v);
      var rest := LeftOut(visible, drawn);
      && (Counted(SummaryFor(visible, drawn)) + |drawn| == |visible| <==> TaskRows(rest) == 0 || HeaderRows(rest) == 0)
      && (TaskRows(rest) > 0 ==> Counted(SummaryFor(visible, drawn)) + |drawn| + HeaderRows(rest) == |visible|)
  {
    DrawnOnce(tasks, v);
    SummaryCounts(AllRows(Blocks(tasks, v)), Drawn(tasks, v));
    hide Blocks, AllRows, Drawn, LeftOut, SummaryFor, TaskRows, HeaderRows;
  }

  /** The unfinished rows, block by block in the order of rank, for which there is no room. */
  function Beyond(tasks: seq<Task>, v: View): seq<Row> {
    var offers := Flatten(OfferedAll(tasks, Ordered(tasks, Blocks(tasks, v)), true));
    offers[|Prefix(offers, Room(tasks, v))|..]
  }

  /** A visible row that is finished, or for which there is no room. */
  ghost predicate Misses(tasks: seq<Task>, v: View, row: Row) {
    row in AllRows(Blocks(tasks, v)) && (row.task.status == Completed || row in Beyond(tasks, v))
  }

  lemma DistinctCut<T>(s: seq<T>, n: nat, x: T)
    requires Distinct(s) && n <= |s|
    ensures x in s <==> x in s[..n] || x in s[n..]
    ensures !(x in s[..n] && x in s[n..])
  {
    assert s == s[..n] + s[n..];
    forall i, j | 0 <= i < n && 0 <= j < |s| - n
      ensures s[..n][i] != s[n..][j]
    {
      assert s[..n][i] == s[i] && s[n..][j] == s[n + j];
    }
  }

  lemma OffersDistinct(tasks: seq<Task>, v: View)
    requires UniqueIds(tasks) && Overflows(tasks, v)
    ensures Distinct(Flatten(OfferedAll(tasks, Ordered(tasks, Blocks(tasks, v)), true)))
  {
    hide Blocks, Ordered, OfferedAll, AllRows, Drawn, Distinct;
    var bs := Blocks(tasks, v);
    BlocksChildren(tasks, v);
    AllRowsDistinct(bs);
    assert multiset(AllRows(Ordered(tasks, bs))) == multiset(AllRows(bs)) by {
      OrderedCount(tasks, bs);
    }
    OffersWithin(tasks, Ordered(tasks, bs), true);
    var offers := Flatten(OfferedAll(tasks, Ordered(tasks, bs), true));
    forall x
      ensures multiset(offers)[x] <= 1
    {
      CountInDistinct(AllRows(bs), x);
    }
    DistinctByCount(offers);
  }

  lemma OrderedCount(tasks: seq<Task>, bs: seq<Block>)
    ensures multiset(AllRows(Ordered(tasks, bs))) == multiset(AllRows(bs))
  {
    OrderedRows((b: Block) => Rank(tasks, b.root), bs);
  }

  /** Under overflow exactly those rows are left out. */
  lemma LeftOutExactly(tasks: seq<Task>, v: View, row: Row)
    requires UniqueIds(tasks) && Overflows(tasks, v)
    ensures row in LeftOut(AllRows(Blocks(tasks, v)), Drawn(tasks, v)) <==> Misses(tasks, v, row)
  {
    hide Blocks, Ordered, OfferedAll, AllRows, Overflows, Room, Distinct, Flatten, InSomeBlock;
    var offers := Flatten(OfferedAll(tasks, Ordered(tasks, Blocks(tasks, v)), true));
    AllRowsExact(Blocks(tasks, v), row);
    OfferedUnfinished(tasks, v, row);
    OffersDistinct(tasks, v);
    DistinctCut(offers, |Prefix(offers, Room(tasks, v))|, row);
  }

  /**
    Said before anything is drawn: under overflow the counts add up exactly when what is finished or finds
    no room are not both tasks and group headers.
   */
  lemma CountsAddUpExactly(tasks: seq<Task>, v: View)
    requires UniqueIds(tasks) && Overflows(tasks, v)
    ensures var visible, drawn := AllRows(Blocks(tasks, v)), Drawn(tasks, v);
      Counted(SummaryFor(visible, drawn)) + |drawn| == |visible| <==>
        (forall row :: Misses(tasks, v, row) ==> row.task.IsGroup())
        || (forall row :: Misses(tasks, v, row) ==> !row.task.IsGroup())
  {
    hide Blocks, AllRows, Drawn, Overflows, SummaryFor, LeftOut, Misses;
    var rest := LeftOut(AllRows(Blocks(tasks, v)), Drawn(tasks, v));
    NothingUncounted(tasks, v);
    forall row
      ensures row in rest <==> Misses(tasks, v, row)
    {
      LeftOutExactly(tasks, v, row);
    }
    CountedNone(rest);
  }

  lemma CountedNone(rows: seq<Row>)
    ensures TaskRows(rows) == 0 <==> forall row :: row in rows ==> row.task.IsGroup()
    ensures HeaderRows(rows) == 0 <==> forall row :: row in rows ==> !row.task.IsGroup()
  {
    var tasks := Filter((r: Row) => !r.task.IsGroup(), rows);
    var headers := Filter((r: Row) => r.task.IsGroup(), rows);
    if tasks != [] {
      assert tasks[0] in tasks;
    }
    if headers != [] {
      assert headers[0] in headers;
    }
  }

  lemma PrefixCount<T>(s: seq<T>, n: nat)
    ensures multiset(Prefix(s, n)) <= multiset(s)
  {
    if n <= |s| {
      assert s == s[..n] + s[n..];
    }
  }

  // ---- unfinished work comes first ----

  /** A group ranks as its best live child, and below all others when it has none. */
  lemma {:induction false} LeastRankMeaning(tasks: seq<Task>, ts: seq<Task>)
    ensures forall t :: t in ts ==> LeastRank(tasks, ts) <= TaskRank(tasks, t)
    ensures LeastRank(tasks, ts) == 3 || exists t :: t in ts && LeastRank(tasks, ts) == TaskRank(tasks, t)
  {
    if ts != [] {
      LeastRankMeaning(tasks, ts[1..]);
      assert ts == [ts[0]] + ts[1..] && ts[0] in ts;
      hide TaskRank;
    }
  }

  /** Of two places in a flattened list, the earlier comes from no later part. */
  lemma {:induction false} FlattenPlaces<T>(ss: seq<seq<T>>, p: nat, q: nat) returns (i: nat, j: nat)
    requires p <= q < |Flatten(ss)|
    ensures i <= j < |ss| && Flatten(ss)[p] in ss[i] && Flatten(ss)[q] in ss[j]
  {
    var n := |ss[0]|;
    if q < n {
      i, j := 0, 0;
    } else if p < n {
      var k, m := FlattenPlaces(ss[1..], q - n, q - n);
      i, j := 0, m + 1;
    } else {
      var k, m := FlattenPlaces(ss[1..], p - n, q - n);
      i, j := k + 1, m + 1;
    }
  }

  lemma PrefixMember<T>(s: seq<T>, n: nat, q: nat)
    requires q < |Prefix(s, n)|
    ensures q < |s| && s[q] in Prefix(s, n)
  {
    assert Prefix(s, n)[q] == s[q];
  }

  lemma OfferedRoot(tasks: seq<Task>, b: Block, overflow: bool, row: Row)
    requires row in Offered(tasks, b, overflow)
    ensures RootOf(row) == b.root
  {
  }

  /**
    A row that is left out although it was offered stands behind every row drawn, by the rank of the
    block it is in.
   */
  lemma WorkFirst(tasks: seq<Task>, v: View, drawn: Row, left: Row)
    requires Overflows(tasks, v) && drawn in Drawn(tasks, v)
    requires left !in Drawn(tasks, v) && left.task.status != Completed && InSomeBlock(left, Blocks(tasks, v))
    ensures Rank(tasks, RootOf(drawn)) <= Rank(tasks, RootOf(left))
  {
    var ordered := Ordered(tasks, Blocks(tasks, v));
    var offers := OfferedAll(tasks, ordered, true);
    OfferedUnfinished(tasks, v, left);
    hide Offered, Blocks, Rank;
    var all := Flatten(offers);
    var p :| 0 <= p < |Drawn(tasks, v)| && Drawn(tasks, v)[p] == drawn;
    var q :| 0 <= q < |all| && all[q] == left;
    if q < |Drawn(tasks, v)| {
      PrefixMember(all, Room(tasks, v), q);
    }
    var i, j := FlattenPlaces(offers, p, q);
    OfferedRoot(tasks, ordered[i], true, drawn);
    OfferedRoot(tasks, ordered[j], true, left);
    assert SortedBy((b: Block) => Rank(tasks, b.root), ordered);
  }

  /** Blocks that rank alike, and children of a group that rank alike, come in the order of the list. */
  lemma RankedAlikeInOrder(tasks: seq<Task>, v: View, b: Block, rank: int)
    ensures OfKey((b: Block) => Rank(tasks, b.root), rank, Ordered(tasks, Blocks(tasks, v))) ==
      OfKey((b: Block) => Rank(tasks, b.root), rank, Blocks(tasks, v))
    ensures OfKey((t: Task) => Rank(tasks, t), rank, SortedChildren(tasks, b)) ==
      OfKey((t: Task) => Rank(tasks, t), rank, b.children)
  {
    hide SortBy, OfKey, Blocks, Rank;
    SortStable((b: Block) => Rank(tasks, b.root), Blocks(tasks, v), rank);
    SortStable((t: Task) => Rank(tasks, t), b.children, rank);
  }

  // ---- which rows there are ----

  /** Finished tasks are hidden after a while, unless all are asked for. */
  predicate NotHidden(v: View, t: Task) {
    v.showAll || t.id !in v.hidden
  }

  /**
    A group's header is there unless all its children are hidden, or it is hidden and has no unfinished
    child that shows.
   */
  ghost predicate HeaderShown(tasks: seq<Task>, v: View, g: Task) {
    && (Children(tasks, g.id) == [] || exists c :: c in Children(tasks, g.id) && NotHidden(v, c))
    && (NotHidden(v, g) || exists c :: c in Children(tasks, g.id) && NotHidden(v, c) && c.status != Completed)
  }

  ghost predicate Root(tasks: seq<Task>, t: Task) {
    t in tasks && t.Live() && t.parentId.None?
  }

  /** A row of a task at the top, or of a child of an expanded group whose header is there. */
  ghost predicate Visible(tasks: seq<Task>, v: View, row: Row) {
    if row.parent.None? then Root(tasks, row.task) && if row.task.IsGroup() then HeaderShown(tasks, v, row.task)
    else NotHidden(v, row.task)
    else
      var g := row.parent.value;
      && Root(tasks, g) && g.IsGroup() && HeaderShown(tasks, v, g) && g.id !in v.collapsed
      && row.task in Children(tasks, g.id) && NotHidden(v, row.task)
  }

  lemma {:induction false} BlocksExact(tasks: seq<Task>, v: View, roots: seq<Task>, b: Block)
    ensures b in BlocksOf(tasks, v, roots) <==> b.root in roots && BlockOf(tasks, v, b.root) == Some(b)
  {
    if roots != [] {
      BlocksExact(tasks, v, roots[1..], b);
      assert roots == [roots[0]] + roots[1..];
      FirstBlock(tasks, v, roots);
      hide BlockOf;
    }
  }

  lemma {:induction false} AllRowsExact(bs: seq<Block>, row: Row)
    ensures row in AllRows(bs) <==> InSomeBlock(row, bs)
  {
    if bs != [] {
      AllRowsExact(bs[1..], row);
      AllRowsCons(bs);
      BlockRowsExact(bs[0], row);
      assert bs == [bs[0]] + bs[1..];
      hide AllRows, RowsOf, InBlock;
      if InSomeBlock(row, bs) {
        var b :| b in bs && InBlock(row, b);
        assert b == bs[0] || b in bs[1..];
      }
    }
  }

  lemma BlockRowsExact(b: Block, row: Row)
    ensures row in RowsOf(b) <==> InBlock(row, b)
  {
    if InBlock(row, b) && row.parent.Some? {
      var i :| 0 <= i < |b.children| && b.children[i] == row.task;
      assert RowsOf(b)[i + 1] == row;
    } else if InBlock(row, b) {
      assert RowsOf(b)[0] == row;
    }
  }

  lemma BlockShown(tasks: seq<Task>, v: View, g: Task)
    ensures g.IsGroup() ==> (BlockOf(tasks, v, g).Some? <==> HeaderShown(tasks, v, g))
    ensures g.IsGroup() && BlockOf(tasks, v, g).Some? ==> forall c ::
      c in BlockOf(tasks, v, g).value.children <==> g.id !in v.collapsed && c in Children(tasks, g.id) && Shown(v, c)
  {
    var children := Children(tasks, g.id);
    var visible := Filter((t: Task) => Shown(v, t), children);
    hide Children;
    if c :| c in children && Shown(v, c) {
      assert c in visible;
    }
    if visible != [] {
      assert visible[0] in visible;
    }
  }

  /** The rows of the widget, said of the tasks: no other row is ever drawn or counted. */
  lemma VisibleRows(tasks: seq<Task>, v: View, row: Row)
    ensures row in AllRows(Blocks(tasks, v)) <==> Visible(tasks, v, row)
  {
    hide HeaderShown, Children, AllRows, BlocksOf;
    var roots := Filter((t: Task) => t.Live() && t.parentId.None?, tasks);
    AllRowsExact(Blocks(tasks, v), row);
    var root := RootOf(row);
    RootListed(tasks, root);
    BlockShown(tasks, v, root);
    if root in roots && BlockOf(tasks, v, root).Some? {
      var b := BlockOf(tasks, v, root).value;
      FirstBlock(tasks, v, [root]);
      BlocksExact(tasks, v, roots, b);
    }
    if InSomeBlock(row, Blocks(tasks, v)) {
      var b :| b in Blocks(tasks, v) && InBlock(row, b);
      BlocksExact(tasks, v, roots, b);
      assert b.root == root;
    }
  }

  lemma RootListed(tasks: seq<Task>, root: Task)
    ensures root in Filter((t: Task) => t.Live() && t.parentId.None?, tasks) <==> Root(tasks, root)
  {
  }

  // ---- a list whose headers go uncounted ----

  const BLANK := Params(Create, Some("a"), None, Keep, None, None, None, None, None, [], [], [], None, None, None)
  const NEW_GROUP := Call(BLANK.(kind := Some(GroupKind)))

  function NewChild(group: int): Event {
    Call(BLANK.(acceptanceCriteria := Some("b"), parentId := Under(group)))
  }

  function PendingGroup(id: int): Task {
    Task(id, "a", Some(GroupKind), None, None, None, None, None, Pending, [], None, map[])
  }

  function PendingChild(id: int, group: int): Task {
    Task(id, "a", None, Some(group), None, Some("b"), None, None, Pending, [], None, map[])
  }

  /** Tasks numbered in order, none of them started, without dependencies, under groups of the list or none. */
  ghost predicate Planned(tasks: seq<Task>) {
    && (forall i :: 0 <= i < |tasks| ==> tasks[i].id == i + 1 && tasks[i].status == Pending && tasks[i].blockedBy == [])
    && (forall i :: 0 <= i < |tasks| && tasks[i].parentId.Some? ==>
         && !tasks[i].IsGroup() && 1 <= tasks[i].parentId.value <= |tasks|
         && tasks[tasks[i].parentId.value - 1].IsGroup())
  }

  /** Such a list passes the nesting check, and its groups are pending. */
  lemma PlannedPasses(tasks: seq<Task>, nextId: int)
    requires Planned(tasks)
    ensures GroupingError(tasks).None? && DeriveGroups(State(tasks, nextId)) == State(tasks, nextId)
  {
    forall i | 0 <= i < |tasks|
      ensures TaskGroupingError(tasks, tasks[i]).None? && DeriveTask(tasks, tasks[i]) == tasks[i]
    {
      if tasks[i].parentId.Some? {
        FindUnique(tasks, tasks[tasks[i].parentId.value - 1]);
      }
      var children := Children(tasks, tasks[i].id);
      FilterNone((t: Task) => t.status == Completed, children);
    }
    hide TaskGroupingError, DeriveTask, Planned;
  }

  ghost predicate Makes(p: Params, t: Task) {
    if t.parentId.None? then p == NEW_GROUP.params && t == PendingGroup(t.id)
    else p == NewChild(t.parentId.value).params && t == PendingChild(t.id, t.parentId.value)
  }

  /** Creating a group or a child of one adds it to such a list. */
  lemma Created(tasks: seq<Task>, p: Params, t: Task)
    requires Makes(p, t) && t.id == |tasks| + 1
    requires Planned(tasks + [t])
    ensures Reduce(State(tasks, |tasks| + 1), p).state == State(tasks + [t], |tasks| + 2)
  {
    hide GroupingError, DeriveGroups, CreateTask, Makes, Planned;
    PlannedPasses(tasks + [t], |tasks| + 2);
    CreatedNext(tasks, p, t);
  }

  lemma CreatedNext(tasks: seq<Task>, p: Params, t: Task)
    requires Makes(p, t) && t.id == |tasks| + 1
    ensures p.action == Create && CreateTask(State(tasks, |tasks| + 1), p) == Next(State(tasks + [t], |tasks| + 2))
  {
    TextsTrimmed();
    hide Trim, Dedup, DependencyError;
  }

  lemma TextsTrimmed()
    ensures Trim("a") == "a" && Trim("b") == "b" && Dedup([]) == [] && Present(Some("a")) && Present(Some("b"))
    ensures forall tasks: seq<Task> :: DependencyError(tasks, [], None).None?
  {
  }

  const TWO_GROUPS := [PendingGroup(1), PendingChild(2, 1), PendingGroup(3), PendingChild(4, 3)]
  const TWO_GROUPS_MADE := [NEW_GROUP, NewChild(1), NEW_GROUP, NewChild(3)]

  lemma TwoGroupsPlanned(n: nat)
    requires n <= 4
    ensures Planned(TWO_GROUPS[..n]) && forall i :: 0 <= i < n ==> Makes(TWO_GROUPS_MADE[i].params, TWO_GROUPS[i])
  {
  }

  lemma {:induction false} TwoGroupsReached(n: nat)
    requires n <= 4
    ensures Run(TWO_GROUPS_MADE[..n]) == State(TWO_GROUPS[..n], n + 1)
  {
    hide Planned, Makes, Reduce;
    if n > 0 {
      TwoGroupsReached(n - 1);
      TwoGroupsPlanned(n);
      assert TWO_GROUPS_MADE[..n][..n - 1] == TWO_GROUPS_MADE[..n - 1];
      assert TWO_GROUPS[..n - 1] + [TWO_GROUPS[n - 1]] == TWO_GROUPS[..n];
      assert TWO_GROUPS[n - 1].id == n && TWO_GROUPS_MADE[n - 1].Call?;
      Created(TWO_GROUPS[..n - 1], TWO_GROUPS_MADE[n - 1].params, TWO_GROUPS[n - 1]);
    }
  }

  const NARROW := View({}, 3, false, {})

  function RowOf(i: nat): Row
    requires i < 4
  {
    Row(TWO_GROUPS[i], if i % 2 == 0 then None else Some(TWO_GROUPS[i - 1]))
  }

  lemma GroupVisible(tasks: seq<Task>, v: View, g: Task, child: Task)
    requires g in tasks && g.IsGroup() && g.Live() && g.parentId.None? && g.id !in v.hidden + v.collapsed
    requires child in tasks && child.Live() && child.parentId == Some(g.id) && child.id !in v.hidden
    ensures Visible(tasks, v, Row(g, None)) && Visible(tasks, v, Row(child, Some(g)))
  {
    assert child in Children(tasks, g.id);
    hide Children;
  }

  lemma TwoGroupsVisible(i: nat)
    requires i < 4
    ensures RowOf(i) in AllRows(Blocks(TWO_GROUPS, NARROW))
  {
    hide Blocks, AllRows, Visible;
    VisibleRows(TWO_GROUPS, NARROW, RowOf(i));
    var g := if i < 2 then 0 else 2;
    assert TWO_GROUPS[g] in TWO_GROUPS && TWO_GROUPS[g + 1] in TWO_GROUPS;
    GroupVisible(TWO_GROUPS, NARROW, TWO_GROUPS[g], TWO_GROUPS[g + 1]);
  }

  /** Where two different rows are visible and at most one row is drawn, one of the two is left out. */
  lemma OneLeftOut(visible: seq<Row>, drawn: seq<Row>, a: Row, b: Row)
    requires a in visible && b in visible && a != b && |drawn| <= 1
    ensures a in LeftOut(visible, drawn) || b in LeftOut(visible, drawn)
  {
  }

  lemma MoreThan(visible: seq<Row>)
    requires forall i :: 0 <= i < 4 ==> RowOf(i) in visible
    ensures |visible| >= 3
  {
    assert RowOf(0) != RowOf(1) && RowOf(1) != RowOf(2) && RowOf(0) != RowOf(2);
  }

  /**
    Two groups with a task each, in three lines: one row is drawn, and the last line counts the tasks
    left out but no header.
   */
  lemma HeadersUncounted()
    ensures var tasks := Run(TWO_GROUPS_MADE).tasks;
      var visible, drawn := AllRows(Blocks(tasks, NARROW)), Drawn(tasks, NARROW);
      && Overflows(tasks, NARROW) && |drawn| <= 1
      && Counted(SummaryFor(visible, drawn)) + |drawn| < |visible|
  {
    hide Blocks, AllRows, SummaryFor, Run, LeftOut, RowOf;
    assert TWO_GROUPS_MADE[..4] == TWO_GROUPS_MADE && TWO_GROUPS[..4] == TWO_GROUPS;
    TwoGroupsReached(4);
    var visible, drawn := AllRows(Blocks(TWO_GROUPS, NARROW)), Drawn(TWO_GROUPS, NARROW);
    forall i | 0 <= i < 4
      ensures RowOf(i) in visible
    {
      TwoGroupsVisible(i);
    }
    MoreThan(visible);
    UncountedRows(visible, drawn);
    assert UniqueIds(TWO_GROUPS);
    NothingUncounted(TWO_GROUPS, NARROW);
  }

  lemma UncountedRows(visible: seq<Row>, drawn: seq<Row>)
    requires |drawn| <= 1 && forall i :: 0 <= i < 4 ==> RowOf(i) in visible
    ensures TaskRows(LeftOut(visible, drawn)) > 0 && HeaderRows(LeftOut(visible, drawn)) > 0
  {
    OneLeftOut(visible, drawn, RowOf(0), RowOf(2));
    OneLeftOut(visible, drawn, RowOf(1), RowOf(3));
    var rest := LeftOut(visible, drawn);
    hide LeftOut;
    var h := if RowOf(0) in rest then RowOf(0) else RowOf(2);
    var t := if RowOf(1) in rest then RowOf(1) else RowOf(3);
    assert h in Filter((r: Row) => r.task.IsGroup(), rest);
    assert t in Filter((r: Row) => !r.task.IsGroup(), rest);
  }
}
