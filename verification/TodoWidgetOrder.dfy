/**
  The widget in plain words: what is urgent, in which order rows come, what is counted, and how many
  lines there are.
 */
module TodoWidgetOrder {
  import opened Prelude
  import opened Sorting
  import opened TodoState
  import opened TodoInvariant
  import opened TodoWidget
  import opened TodoWidgetCounts

  // ---- what is urgent ----

  /** Some task it depends on is not a live one that is completed. */
  ghost predicate Waits(tasks: seq<Task>, t: Task) {
    exists d :: d in t.blockedBy && forall u :: u in tasks && u.id == d && u.status != Deleted ==> u.status != Completed
  }

  /** Active work comes before ready work, ready work before work that waits, and what is completed last. */
  ghost predicate Sooner(tasks: seq<Task>, a: Task, b: Task) {
    || (a.status == InProgress && b.status != InProgress)
    || (a.status == Pending && b.status == Completed)
    || (a.status == Pending == b.status && !Waits(tasks, a) && Waits(tasks, b))
  }

  lemma LiveOne(tasks: seq<Task>, id: int)
    requires UniqueIds(tasks)
    ensures var dep := Find(Filter((u: Task) => u.Live(), tasks), id);
      && (dep.Some? ==> dep.value in tasks && dep.value.id == id && dep.value.status != Deleted)
      && (forall u :: u in tasks && u.id == id && u.status != Deleted ==> dep == Some(u))
  {
    var live := Filter((u: Task) => u.Live(), tasks);
    if dep :| dep in tasks && dep.id == id && dep.status != Deleted {
      assert dep in live;
      LiveUnique(tasks);
      FindUnique(live, dep);
    }
  }

  lemma {:induction false} LiveUnique(tasks: seq<Task>)
    requires UniqueIds(tasks)
    ensures UniqueIds(Filter((u: Task) => u.Live(), tasks))
  {
    if tasks != [] {
      LiveUnique(tasks[1..]);
      var rest := Filter((u: Task) => u.Live(), tasks[1..]);
      forall k | 0 <= k < |rest|
        ensures rest[k].id != tasks[0].id
      {
        assert rest[k] in rest && rest[k] in tasks[1..];
        var j :| 0 <= j < |tasks[1..]| && tasks[1..][j] == rest[k];
        assert tasks[j + 1].id != tasks[0].id;
      }
    }
  }

  lemma UnresolvedWaits(tasks: seq<Task>, t: Task)
    requires UniqueIds(tasks)
    ensures Unresolved(tasks, t) <==> Waits(tasks, t)
  {
    forall d | d in t.blockedBy
      ensures var dep := Find(Filter((u: Task) => u.Live(), tasks), d);
        (dep.None? || dep.value.status != Completed) <==>
          forall u :: u in tasks && u.id == d && u.status != Deleted ==> u.status != Completed
    {
      LiveOne(tasks, d);
    }
    hide Find;
    if Unresolved(tasks, t) {
      var i :| 0 <= i < |t.blockedBy| &&
        var dep := Find(Filter((u: Task) => u.Live(), tasks), t.blockedBy[i]);
        dep.None? || dep.value.status != Completed;
      assert t.blockedBy[i] in t.blockedBy;
    }
    if Waits(tasks, t) {
      var d :| d in t.blockedBy && forall u :: u in tasks && u.id == d && u.status != Deleted ==> u.status != Completed;
      var i :| 0 <= i < |t.blockedBy| && t.blockedBy[i] == d;
      var dep := Find(Filter((u: Task) => u.Live(), tasks), t.blockedBy[i]);
      assert dep.None? || dep.value.status != Completed;
    }
  }

  /** Ranks are about urgency only. */
  lemma RankedByUrgency(tasks: seq<Task>, a: Task, b: Task)
    requires UniqueIds(tasks) && a.status != Deleted && b.status != Deleted
    ensures TaskRank(tasks, a) < TaskRank(tasks, b) <==> Sooner(tasks, a, b)
    ensures TaskRank(tasks, a) == 3 <==> a.status == Completed
    ensures TaskRank(tasks, a) <= 3
  {
    UnresolvedWaits(tasks, a);
    UnresolvedWaits(tasks, b);
    hide Unresolved, Waits;
  }

  /** What a row at the top stands for: the task itself, or the live children of a group. */
  ghost predicate StandsFor(tasks: seq<Task>, root: Task, t: Task) {
    if root.kind == Some(GroupKind) then t in tasks && t.parentId == Some(root.id) && t.status != Deleted else t == root
  }

  /** For whatever the one stands for, the other stands for something no less urgent, or the former is completed. */
  ghost predicate NoLater(tasks: seq<Task>, a: Task, b: Task) {
    forall u :: StandsFor(tasks, b, u) && u.status != Completed ==>
      exists t :: StandsFor(tasks, a, t) && !Sooner(tasks, u, t)
  }

  lemma RankBound(tasks: seq<Task>, root: Task, u: Task)
    requires UniqueIds(tasks) && StandsFor(tasks, root, u)
    ensures Rank(tasks, root) <= TaskRank(tasks, u)
  {
    if root.IsGroup() {
      LeastRankMeaning(tasks, Children(tasks, root.id));
      assert u in Children(tasks, root.id);
    }
  }

  lemma RankReached(tasks: seq<Task>, root: Task) returns (t: Task)
    requires UniqueIds(tasks) && Rank(tasks, root) < 3
    ensures StandsFor(tasks, root, t) && TaskRank(tasks, t) == Rank(tasks, root)
  {
    if root.IsGroup() {
      LeastRankMeaning(tasks, Children(tasks, root.id));
      t :| t in Children(tasks, root.id) && TaskRank(tasks, t) == Rank(tasks, root);
    } else {
      t := root;
    }
  }

  lemma RanksNoLater(tasks: seq<Task>, a: Task, b: Task)
    requires UniqueIds(tasks) && a.status != Deleted && b.status != Deleted && Rank(tasks, a) <= Rank(tasks, b)
    ensures NoLater(tasks, a, b)
  {
    hide Rank, TaskRank, Sooner;
    forall u | StandsFor(tasks, b, u) && u.status != Completed
      ensures exists t :: StandsFor(tasks, a, t) && !Sooner(tasks, u, t)
    {
      RankBound(tasks, b, u);
      RankedByUrgency(tasks, u, u);
      var t := RankReached(tasks, a);
      assert t.status != Deleted;
      RankedByUrgency(tasks, u, t);
    }
  }

  lemma InBlockLive(tasks: seq<Task>, v: View, row: Row)
    requires InSomeBlock(row, Blocks(tasks, v))
    ensures RootOf(row).status != Deleted && row.task.status != Deleted
  {
    var b :| b in Blocks(tasks, v) && InBlock(row, b);
    assert BlockOf(tasks, v, b.root) == Some(b);
  }

  /** An unfinished row is left out only behind rows of blocks that are no less urgent. */
  lemma UrgentFirst(tasks: seq<Task>, v: View, drawn: Row, left: Row)
    requires UniqueIds(tasks) && Overflows(tasks, v) && drawn in Drawn(tasks, v)
    requires left !in Drawn(tasks, v) && left.task.status != Completed && InSomeBlock(left, Blocks(tasks, v))
    ensures NoLater(tasks, RootOf(drawn), RootOf(left))
  {
    WorkFirst(tasks, v, drawn, left);
    OverflowDrawsUnfinished(tasks, v, drawn);
    hide Blocks, Drawn, Rank, NoLater, InSomeBlock, Overflows, Room;
    InBlockLive(tasks, v, drawn);
    InBlockLive(tasks, v, left);
    RanksNoLater(tasks, RootOf(drawn), RootOf(left));
  }

  // ---- in which order rows come ----

  lemma {:induction false} FlattenSame<T>(ss: seq<seq<T>>, p: nat, q: nat) returns (i: nat, j: nat, x: nat, y: nat)
    requires p < q < |Flatten(ss)|
    ensures i <= j < |ss| && x < |ss[i]| && y < |ss[j]| && Flatten(ss)[p] == ss[i][x] && Flatten(ss)[q] == ss[j][y]
    ensures i == j ==> x < y
  {
    var n := |ss[0]|;
    if q < n {
      i, j, x, y := 0, 0, p, q;
    } else if p < n {
      i, x := 0, p;
      j, y := FlattenAt(ss[1..], q - n);
      j := j + 1;
    } else {
      i, j, x, y := FlattenSame(ss[1..], p - n, q - n);
      i, j := i + 1, j + 1;
    }
  }

  lemma {:induction false} FlattenAt<T>(ss: seq<seq<T>>, q: nat) returns (j: nat, y: nat)
    requires q < |Flatten(ss)|
    ensures j < |ss| && y < |ss[j]| && Flatten(ss)[q] == ss[j][y]
  {
    if q < |ss[0]| {
      j, y := 0, q;
    } else {
      j, y := FlattenAt(ss[1..], q - |ss[0]|);
      j := j + 1;
    }
  }

  lemma RowsInOrder(tasks: seq<Task>, b: Block, i: nat, j: nat)
    requires i < j <= |b.children|
    ensures var rows := RowsOf(b.(children := SortedChildren(tasks, b)));
      && |rows| == 1 + |SortedChildren(tasks, b)| && (j < |rows| ==> rows[j].parent.Some?)
      && (j < |rows| && rows[i].parent.Some? ==> Rank(tasks, rows[i].task) <= Rank(tasks, rows[j].task))
  {
    hide Rank, SortBy;
    var children := SortedChildren(tasks, b);
    assert SortedBy((t: Task) => Rank(tasks, t), children);
  }

  lemma SortedLength(tasks: seq<Task>, b: Block)
    ensures |SortedChildren(tasks, b)| == |b.children|
  {
    SortCount((t: Task) => Rank(tasks, t), b.children);
    assert |multiset(SortedChildren(tasks, b))| == |multiset(b.children)|;
  }

  lemma OfferedInOrder(tasks: seq<Task>, b: Block, overflow: bool, x: nat, y: nat)
    requires x < y < |Offered(tasks, b, overflow)|
    ensures var offered := Offered(tasks, b, overflow);
      offered[x].parent.Some? ==> Rank(tasks, offered[x].task) <= Rank(tasks, offered[y].task)
    ensures Offered(tasks, b, overflow)[y].parent.Some?
  {
    hide Rank, SortedChildren, RowsOf;
    var rows := RowsOf(b.(children := SortedChildren(tasks, b)));
    var i, j := x, y;
    if overflow {
      i, j := FilterPlaces((r: Row) => r.task.status != Completed, rows, x, y);
    }
    SortedLength(tasks, b);
    RowsInOrder(tasks, b, i, j);
  }

  /** What stays after a filter stays in order. */
  lemma {:induction false} FilterPlaces<T(!new)>(p: T -> bool, s: seq<T>, x: nat, y: nat) returns (i: nat, j: nat)
    requires x < y < |Filter(p, s)|
    ensures i < j < |s| && Filter(p, s)[x] == s[i] && Filter(p, s)[y] == s[j]
  {
    if !p(s[0]) {
      i, j := FilterPlaces(p, s[1..], x, y);
      i, j := i + 1, j + 1;
    } else if x > 0 {
      i, j := FilterPlaces(p, s[1..], x - 1, y - 1);
      i, j := i + 1, j + 1;
    } else {
      i := 0;
      var rest := Filter(p, s[1..]);
      assert rest[y - 1] in rest && rest[y - 1] in s[1..];
      j :| 0 <= j < |s[1..]| && s[1..][j] == rest[y - 1];
      j := j + 1;
    }
  }

  lemma OrderedRoots(tasks: seq<Task>, v: View, i: nat, j: nat)
    requires UniqueIds(tasks) && i < j < |Ordered(tasks, Blocks(tasks, v))|
    ensures var ordered := Ordered(tasks, Blocks(tasks, v));
      ordered[i].root != ordered[j].root && Rank(tasks, ordered[i].root) <= Rank(tasks, ordered[j].root)
  {
    hide Blocks, Rank;
    var bs := Blocks(tasks, v);
    var key := (b: Block) => Rank(tasks, b.root);
    BlocksChildren(tasks, v);
    var ordered := Ordered(tasks, bs);
    SortCount(key, bs);
    assert SortedBy(key, ordered);
    forall x
      ensures multiset(ordered)[x] <= 1
    {
      CountInDistinct(bs, x);
    }
    DistinctByCount(ordered);
    assert ordered[i] in bs && ordered[j] in bs;
  }

  /**
    Of two rows, the one drawn first is of a block that is no less urgent; and of two children of one group
    it is no less urgent itself.
   */
  lemma DrawnInOrder(tasks: seq<Task>, v: View, p: nat, q: nat)
    requires UniqueIds(tasks) && p < q < |Drawn(tasks, v)|
    ensures var a, b := Drawn(tasks, v)[p], Drawn(tasks, v)[q];
      && NoLater(tasks, RootOf(a), RootOf(b))
      && (a.parent.Some? && a.parent == b.parent && a.task.kind != Some(GroupKind) && b.task.kind != Some(GroupKind)
          ==> !Sooner(tasks, b.task, a.task))
  {
    DrawnRanks(tasks, v, p, q);
    DrawnLive(tasks, v, p);
    DrawnLive(tasks, v, q);
    var a, b := Drawn(tasks, v)[p], Drawn(tasks, v)[q];
    hide Drawn, Sooner, NoLater, TaskRank;
    RanksNoLater(tasks, RootOf(a), RootOf(b));
    RankedByUrgency(tasks, b.task, a.task);
  }

  lemma DrawnLive(tasks: seq<Task>, v: View, p: nat)
    requires p < |Drawn(tasks, v)|
    ensures RootOf(Drawn(tasks, v)[p]).status != Deleted && Drawn(tasks, v)[p].task.status != Deleted
  {
    var ordered := Ordered(tasks, Blocks(tasks, v));
    var offers := OfferedAll(tasks, ordered, Overflows(tasks, v));
    hide Blocks, Ordered, Offered, Overflows, Room, InBlock;
    var i, x := FlattenAt(offers, p);
    assert ordered[i] in ordered;
    OfferedIn(tasks, ordered[i], Overflows(tasks, v), x);
    OrderedIn(tasks, v, ordered[i]);
    InBlockLive(tasks, v, Drawn(tasks, v)[p]);
  }

  lemma OrderedIn(tasks: seq<Task>, v: View, b: Block)
    requires b in Ordered(tasks, Blocks(tasks, v))
    ensures b in Blocks(tasks, v)
  {
  }

  lemma OfferedIn(tasks: seq<Task>, b: Block, overflow: bool, x: nat)
    requires x < |Offered(tasks, b, overflow)|
    ensures InBlock(Offered(tasks, b, overflow)[x], b)
  {
    hide Rank, SortBy;
    var row := Offered(tasks, b, overflow)[x];
    assert row in Offered(tasks, b, overflow);
    var rows := RowsOf(b.(children := SortedChildren(tasks, b)));
    assert row in rows;
  }

  lemma DrawnRanks(tasks: seq<Task>, v: View, p: nat, q: nat)
    requires UniqueIds(tasks) && p < q < |Drawn(tasks, v)|
    ensures var a, b := Drawn(tasks, v)[p], Drawn(tasks, v)[q];
      && Rank(tasks, RootOf(a)) <= Rank(tasks, RootOf(b))
      && (a.parent.Some? && a.parent == b.parent ==> Rank(tasks, a.task) <= Rank(tasks, b.task))
  {
    var overflow := Overflows(tasks, v);
    var ordered := Ordered(tasks, Blocks(tasks, v));
    var offers := OfferedAll(tasks, ordered, overflow);
    hide Blocks, Ordered, Offered, Overflows, Room, Rank;
    var i, j, x, y := FlattenSame(offers, p, q);
    OfferedIn(tasks, ordered[i], overflow, x);
    OfferedIn(tasks, ordered[j], overflow, y);
    if i == j {
      OfferedInOrder(tasks, ordered[i], overflow, x, y);
    } else {
      OrderedRoots(tasks, v, i, j);
    }
  }

  // ---- what is counted ----

  lemma FilterSize<T(!new)>(p: T -> bool, s: seq<T>, those: set<T>)
    requires Distinct(s) && forall x :: x in those <==> x in s && p(x)
    ensures Distinct(Filter(p, s)) && |Filter(p, s)| == |those|
  {
    FilterDistinct(p, s);
    SetSize(Filter(p, s));
    assert (set x | x in Filter(p, s)) == those;
  }

  /** The live tasks that are no groups. */
  ghost function Leaves(tasks: seq<Task>): set<Task> {
    set t | t in tasks && t.status != Deleted && t.kind != Some(GroupKind)
  }

  ghost function LeavesAt(tasks: seq<Task>, status: Status): set<Task> {
    set t | t in Leaves(tasks) && t.status == status
  }

  lemma LeavesCounted(tasks: seq<Task>)
    requires Distinct(tasks)
    ensures var leaves := Filter((t: Task) => t.Live() && !t.IsGroup(), tasks);
      Distinct(leaves) && |leaves| == |Leaves(tasks)| && forall t :: t in leaves <==> t in Leaves(tasks)
  {
    var p := (t: Task) => t.Live() && !t.IsGroup();
    FilterSize(p, tasks, Leaves(tasks));
  }

  lemma StatusCounted(tasks: seq<Task>, leaves: seq<Task>, status: Status)
    requires Distinct(leaves) && forall t :: t in leaves <==> t in Leaves(tasks)
    ensures |Filter((t: Task) => t.status == status, leaves)| == |LeavesAt(tasks, status)|
  {
    hide Leaves, Distinct;
    var p := (t: Task) => t.status == status;
    FilterSize(p, leaves, LeavesAt(tasks, status));
  }

  /** The heading counts the live tasks that are no groups, by status, and says whether something unfinished shows. */
  lemma HeadingMeans(tasks: seq<Task>, visible: seq<Row>)
    requires UniqueIds(tasks)
    ensures HeadingFor(tasks, visible) ==
      Heading(|LeavesAt(tasks, Completed)|, |Leaves(tasks)|, |LeavesAt(tasks, InProgress)|, |LeavesAt(tasks, Pending)|,
              exists r :: r in visible && r.task.status != Completed)
  {
    UniqueDistinct(tasks);
    LeavesCounted(tasks);
    var leaves := Filter((t: Task) => t.Live() && !t.IsGroup(), tasks);
    hide Filter, UniqueIds, Distinct, Leaves, LeavesAt;
    StatusCounted(tasks, leaves, Completed);
    StatusCounted(tasks, leaves, InProgress);
    StatusCounted(tasks, leaves, Pending);
  }

  /** The rows that are visible but not drawn. */
  ghost function Missing(visible: seq<Row>, drawn: seq<Row>): set<Row> {
    set r | r in visible && r !in drawn
  }

  /** Those of them that are no headers. */
  ghost function MissingAt(visible: seq<Row>, drawn: seq<Row>, completed: bool): set<Row> {
    set r | r in Missing(visible, drawn) && r.task.kind != Some(GroupKind) && (r.task.status == Completed) == completed
  }

  lemma MissingCounted(visible: seq<Row>, drawn: seq<Row>)
    requires Distinct(visible)
    ensures var rest := LeftOut(visible, drawn);
      Distinct(rest) && |rest| == |Missing(visible, drawn)| && forall r :: r in rest <==> r in Missing(visible, drawn)
  {
    var p := (r: Row) => r !in drawn;
    FilterSize(p, visible, Missing(visible, drawn));
  }

  lemma MissingTasks(visible: seq<Row>, drawn: seq<Row>, rest: seq<Row>)
    requires Distinct(rest) && forall r :: r in rest <==> r in Missing(visible, drawn)
    ensures var tasks := Filter((r: Row) => !r.task.IsGroup(), rest);
      && |Filter((r: Row) => r.task.status == Completed, tasks)| == |MissingAt(visible, drawn, true)|
      && |tasks| == |MissingAt(visible, drawn, true)| + |MissingAt(visible, drawn, false)|
  {
    hide Missing, Distinct;
    var p, q := (r: Row) => !r.task.IsGroup(), (r: Row) => r.task.status == Completed;
    var done, open := MissingAt(visible, drawn, true), MissingAt(visible, drawn, false);
    FilterSize(p, rest, done + open);
    FilterSize(q, Filter(p, rest), done);
    assert done !! open;
  }

  /**
    The last line counts the missing tasks, unfinished and completed ones, or, if there are none, the
    missing headers.
   */
  lemma SummaryMeans(visible: seq<Row>, drawn: seq<Row>)
    requires Distinct(visible)
    ensures var done, open := |MissingAt(visible, drawn, true)|, |MissingAt(visible, drawn, false)|;
      SummaryFor(visible, drawn) ==
        if done + open == 0 then MoreGroups(|Missing(visible, drawn)|) else MoreTasks(open, done)
  {
    MissingCounted(visible, drawn);
    MissingTasks(visible, drawn, LeftOut(visible, drawn));
    hide LeftOut, Filter, Missing, MissingAt, Distinct;
  }

  // ---- how many lines there are ----

  lemma BlockOffers(tasks: seq<Task>, b: Block, row: Row)
    requires InBlock(row, b)
    ensures row in Offered(tasks, b, false)
  {
    hide Rank;
    var children := SortedChildren(tasks, b);
    BlockRowsExact(b.(children := children), row);
    hide SortBy, RowsOf;
  }

  lemma OfferedEverything(tasks: seq<Task>, bs: seq<Block>, row: Row)
    requires InSomeBlock(row, bs)
    ensures row in Flatten(OfferedAll(tasks, bs, false))
  {
    hide Offered, InBlock;
    var b :| b in bs && InBlock(row, b);
    var k :| 0 <= k < |bs| && bs[k] == b;
    BlockOffers(tasks, b, row);
    FlattenMember(OfferedAll(tasks, bs, false), row);
  }

  /** Rows that are visible and not completed. */
  ghost function Open(visible: seq<Row>): set<Row> {
    set r | r in visible && r.task.status != Completed
  }

  /** How many of them there are is how many the ordered blocks offer. */
  lemma OpenCounted(tasks: seq<Task>, v: View)
    requires UniqueIds(tasks) && Overflows(tasks, v)
    ensures |Flatten(OfferedAll(tasks, Ordered(tasks, Blocks(tasks, v)), true))| == |Open(AllRows(Blocks(tasks, v)))|
  {
    var offers := Flatten(OfferedAll(tasks, Ordered(tasks, Blocks(tasks, v)), true));
    OffersDistinct(tasks, v);
    SetSize(offers);
    hide Blocks, Ordered, OfferedAll, AllRows, Flatten, Overflows, Distinct, InSomeBlock;
    forall row
      ensures row in offers <==> row in Open(AllRows(Blocks(tasks, v)))
    {
      OfferedUnfinished(tasks, v, row);
      AllRowsExact(Blocks(tasks, v), row);
    }
    assert (set x | x in offers) == Open(AllRows(Blocks(tasks, v)));
  }

  lemma AllOffered(tasks: seq<Task>, v: View)
    requires UniqueIds(tasks)
    ensures var all := Flatten(OfferedAll(tasks, Ordered(tasks, Blocks(tasks, v)), false));
      |all| <= |AllRows(Blocks(tasks, v))| && forall row :: row in AllRows(Blocks(tasks, v)) ==> row in all
  {
    hide Blocks, Ordered, OfferedAll, AllRows, Flatten, Distinct, InSomeBlock;
    var bs := Blocks(tasks, v);
    OffersWithin(tasks, Ordered(tasks, bs), false);
    OrderedCount(tasks, bs);
    NoLonger(Flatten(OfferedAll(tasks, Ordered(tasks, bs), false)), AllRows(bs));
    forall row | row in AllRows(bs)
      ensures row in Flatten(OfferedAll(tasks, Ordered(tasks, bs), false))
    {
      AllRowsExact(bs, row);
      OrderedSome(tasks, bs, row);
      OfferedEverything(tasks, Ordered(tasks, bs), row);
    }
  }

  /** When all rows fit, all are drawn. */
  lemma AllDrawn(tasks: seq<Task>, v: View)
    requires UniqueIds(tasks) && !Overflows(tasks, v)
    ensures |Drawn(tasks, v)| == |AllRows(Blocks(tasks, v))|
  {
    AllOffered(tasks, v);
    DrawnOnce(tasks, v);
    hide Blocks, Ordered, OfferedAll, AllRows, Flatten, Distinct, UniqueIds;
    NoneMissing(AllRows(Blocks(tasks, v)), Drawn(tasks, v));
  }

  lemma OrderedSome(tasks: seq<Task>, bs: seq<Block>, row: Row)
    requires InSomeBlock(row, bs)
    ensures InSomeBlock(row, Ordered(tasks, bs))
  {
    hide Rank, InBlock;
  }

  lemma NoLonger(a: seq<Row>, b: seq<Row>)
    requires multiset(a) <= multiset(b)
    ensures |a| <= |b|
  {
    assert |multiset(a)| == |a| && |multiset(b)| == |b|;
    assert multiset(b) == multiset(a) + (multiset(b) - multiset(a));
  }

  lemma NoneMissing(visible: seq<Row>, drawn: seq<Row>)
    requires forall r :: r in visible ==> r in drawn
    ensures LeftOut(visible, drawn) == []
  {
    FilterNone((r: Row) => r !in drawn, visible);
  }

  /**
    The panel takes no line when nothing shows; else a heading, and a line for each visible row when they fit
    in the lines allowed or all are asked for; else as many unfinished rows as fit, and a last line.
   */
  lemma LineCount(s: State, v: View)
    requires UniqueIds(s.tasks)
    ensures var visible := AllRows(Blocks(s.tasks, v));
      var cap := if v.maxLines > 3 then v.maxLines else 3;
      var open := |Open(visible)|;
      |Lines(s, v)| ==
        if visible == [] then 0
        else if v.showAll || |visible| < cap then 1 + |visible|
        else 1 + (if open < cap - 2 then open else cap - 2) + 1
  {
    if Overflows(s.tasks, v) {
      OpenCounted(s.tasks, v);
    } else {
      AllDrawn(s.tasks, v);
    }
    hide Blocks, Ordered, OfferedAll, AllRows, Flatten, HeadingFor, SummaryFor, Open, UniqueIds;
  }
}
