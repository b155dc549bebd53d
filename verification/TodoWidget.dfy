/** Which rows the todo widget draws when no width is given, so that every row is one line. */
module TodoWidget {
  import opened Prelude
  import opened Sorting
  import opened TodoState
  import opened TodoInvariant

  /** A root task or group header, or a child under its group. */
  datatype Row = Row(task: Task, parent: Option<Task>)

  /** A root with the children that are drawn under it. */
  datatype Block = Block(root: Task, children: seq<Task>)

  datatype View = View(hidden: set<int>, maxLines: int, showAll: bool, collapsed: set<int>)

  datatype Line =
    | Heading(done: nat, total: nat, active: nat, pending: nat, open: bool)
    | TaskLine(row: Row)
    /** What the last line says is missing: tasks if there are any, and group headers only if there are not. */
    | MoreTasks(unfinished: nat, completed: nat)
    | MoreGroups(groups: nat)

  predicate Shown(v: View, t: Task) {
    v.showAll || t.id !in v.hidden
  }

  function BlockOf(tasks: seq<Task>, v: View, root: Task): Option<Block> {
    if !root.IsGroup() then
      if Shown(v, root) then Some(Block(root, [])) else None
    else
      var children := Children(tasks, root.id);
      var visible := Filter((t: Task) => Shown(v, t), children);
      if children != [] && visible == [] then None
      else if !Shown(v, root) && !exists t :: t in visible && t.status != Completed then None
      else Some(Block(root, if root.id in v.collapsed then [] else visible))
  }

  function BlocksOf(tasks: seq<Task>, v: View, roots: seq<Task>): (r: seq<Block>)
    ensures forall b :: b in r ==> b.root in roots && BlockOf(tasks, v, b.root) == Some(b)
  {
    if roots == [] then []
    else
      assert roots == [roots[0]] + roots[1..];
      var b := BlockOf(tasks, v, roots[0]);
      (if b.Some? then [b.value] else []) + BlocksOf(tasks, v, roots[1..])
  }

  function Blocks(tasks: seq<Task>, v: View): seq<Block> {
    BlocksOf(tasks, v, Filter((t: Task) => t.Live() && t.parentId.None?, tasks))
  }

  function RowsOf(b: Block): (r: seq<Row>)
    ensures |r| == 1 + |b.children|
  {
    [Row(b.root, None)] + seq(|b.children|, i requires 0 <= i < |b.children| => Row(b.children[i], Some(b.root)))
  }

  function AllRows(bs: seq<Block>): seq<Row> {
    Flatten(seq(|bs|, i requires 0 <= i < |bs| => RowsOf(bs[i])))
  }

  // ---- order ----

  predicate Unresolved(tasks: seq<Task>, t: Task) {
    exists i :: 0 <= i < |t.blockedBy| &&
      var dep := Find(Filter((u: Task) => u.Live(), tasks), t.blockedBy[i]);
      dep.None? || dep.value.status != Completed
  }

  function TaskRank(tasks: seq<Task>, t: Task): int {
    if t.status == Completed then 3 else if t.status == InProgress then 0 else if Unresolved(tasks, t) then 2 else 1
  }

  function LeastRank(tasks: seq<Task>, ts: seq<Task>): int {
    if ts == [] then 3
    else
      var r, rest := TaskRank(tasks, ts[0]), LeastRank(tasks, ts[1..]);
      if r < rest then r else rest
  }

  /** Active work first, then ready, blocked and finished work; a group ranks as its best child. */
  function Rank(tasks: seq<Task>, t: Task): int {
    if t.IsGroup() then LeastRank(tasks, Children(tasks, t.id)) else TaskRank(tasks, t)
  }

  function Ordered(tasks: seq<Task>, bs: seq<Block>): seq<Block> {
    SortBy((b: Block) => Rank(tasks, b.root), bs)
  }

  function SortedChildren(tasks: seq<Task>, b: Block): seq<Task> {
    SortBy((t: Task) => Rank(tasks, t), b.children)
  }

  /** The rows one block offers: header first, work first, and nothing finished when space is scarce. */
  function Offered(tasks: seq<Task>, b: Block, overflow: bool): seq<Row> {
    var sorted := RowsOf(b.(children := SortedChildren(tasks, b)));
    if overflow then Filter((r: Row) => r.task.status != Completed, sorted) else sorted
  }

  function OfferedAll(tasks: seq<Task>, bs: seq<Block>, overflow: bool): (r: seq<seq<Row>>)
    ensures |r| == |bs|
    ensures forall i :: 0 <= i < |bs| ==> r[i] == Offered(tasks, bs[i], overflow)
  {
    seq(|bs|, i requires 0 <= i < |bs| => Offered(tasks, bs[i], overflow))
  }

  // ---- drawing ----

  /** Take rows block by block until the budget is used up. */
  method Select(tasks: seq<Task>, ordered: seq<Block>, overflow: bool, budget: nat) returns (selected: seq<Row>)
    ensures selected == Prefix(Flatten(OfferedAll(tasks, ordered, overflow)), budget)
  {
    hide Flatten, Prefix, Offered;
    SelectStart(OfferedAll(tasks, ordered, overflow), budget);
    selected := [];
    var remaining := budget;
    ghost var offers := OfferedAll(tasks, ordered, overflow);
    for k := 0 to |ordered|
      invariant selected == Prefix(Flatten(offers[..k]), budget)
      invariant remaining == budget - |selected|
    {
      if remaining == 0 {
        SelectDone(offers, k, budget);
        return;
      }
      var rows := Offered(tasks, ordered[k], overflow);
      SelectStep(offers, k, budget);
      var taken := Prefix(rows, remaining);
      selected := selected + taken;
      remaining := remaining - |taken|;
    }
    assert offers[..|ordered|] == offers;
  }

  lemma SelectStart(offers: seq<seq<Row>>, budget: nat)
    ensures Prefix(Flatten(offers[..0]), budget) == []
  {
  }

  lemma SelectDone(offers: seq<seq<Row>>, k: nat, budget: nat)
    requires k <= |offers| && |Prefix(Flatten(offers[..k]), budget)| == budget
    ensures Prefix(Flatten(offers), budget) == Prefix(Flatten(offers[..k]), budget)
  {
    FlattenPrefix(offers, k);
  }

  lemma SelectStep(offers: seq<seq<Row>>, k: nat, budget: nat)
    requires k < |offers|
    ensures var selected := Prefix(Flatten(offers[..k]), budget);
      |selected| <= budget
      && Prefix(Flatten(offers[..k + 1]), budget) == selected + Prefix(offers[k], budget - |selected|)
      && |selected + Prefix(offers[k], budget - |selected|)| <= budget
  {
    assert offers[..k + 1] == offers[..k] + [offers[k]];
    FlattenSnoc(offers[..k], offers[k]);
    PrefixAppend(Flatten(offers[..k]), offers[k], budget);
  }

  function Budget(v: View, rows: nat): nat {
    if v.showAll then rows else (if v.maxLines > 3 then v.maxLines else 3) - 1
  }

  predicate Overflows(tasks: seq<Task>, v: View) {
    var rows := |AllRows(Blocks(tasks, v))|;
    rows > Budget(v, rows)
  }

  /** How many task lines fit: one less when the last line has to say what is missing. */
  function Room(tasks: seq<Task>, v: View): nat {
    var rows := |AllRows(Blocks(tasks, v))|;
    if Overflows(tasks, v) then Budget(v, rows) - 1 else Budget(v, rows)
  }

  /** The rows drawn: as many as fit of what the ordered blocks offer. */
  function Drawn(tasks: seq<Task>, v: View): seq<Row> {
    Prefix(Flatten(OfferedAll(tasks, Ordered(tasks, Blocks(tasks, v)), Overflows(tasks, v))), Room(tasks, v))
  }

  function TaskLines(rows: seq<Row>): (r: seq<Line>)
    ensures |r| == |rows|
    ensures forall i :: 0 <= i < |r| ==> r[i] == TaskLine(rows[i])
  {
    seq(|rows|, i requires 0 <= i < |rows| => TaskLine(rows[i]))
  }

  function HeadingFor(tasks: seq<Task>, visible: seq<Row>): (r: Line)
    ensures r.Heading?
  {
    var leaves := Filter((t: Task) => t.Live() && !t.IsGroup(), tasks);
    Heading(
      |Filter((t: Task) => t.status == Completed, leaves)|, |leaves|,
      |Filter((t: Task) => t.status == InProgress, leaves)|, |Filter((t: Task) => t.status == Pending, leaves)|,
      exists r :: r in visible && r.task.status != Completed)
  }

  /** The visible rows that are not drawn. */
  function LeftOut(visible: seq<Row>, selected: seq<Row>): seq<Row> {
    Filter((r: Row) => r !in selected, visible)
  }

  function SummaryFor(visible: seq<Row>, selected: seq<Row>): (r: Line)
    ensures r.MoreTasks? || r.MoreGroups?
  {
    var rest := LeftOut(visible, selected);
    var tasks := Filter((r: Row) => !r.task.IsGroup(), rest);
    var completed := |Filter((r: Row) => r.task.status == Completed, tasks)|;
    if tasks != [] then MoreTasks(|tasks| - completed, completed) else MoreGroups(|rest|)
  }

  /** The panel: a heading, the rows that fit and, when some do not, what is missing. */
  function Lines(s: State, v: View): seq<Line> {
    var visible := AllRows(Blocks(s.tasks, v));
    if visible == [] then []
    else
      var drawn := Drawn(s.tasks, v);
      [HeadingFor(s.tasks, visible)] + TaskLines(drawn) + (if Overflows(s.tasks, v) then [SummaryFor(visible, drawn)]
        else [])
  }

  method WidgetRows(s: State, v: View) returns (lines: seq<Line>)
    ensures lines == Lines(s, v)
  {
    hide HeadingFor, SummaryFor, OfferedAll, Ordered, Blocks;
    var blocks := Blocks(s.tasks, v);
    var visible := AllRows(blocks);
    if visible == [] {
      return [];
    }
    var budget := Budget(v, |visible|);
    var overflow := |visible| > budget;
    var selected := Select(s.tasks, Ordered(s.tasks, blocks), overflow, if overflow then budget - 1 else budget);
    lines := [HeadingFor(s.tasks, visible)] + TaskLines(selected) + (if overflow then [SummaryFor(visible, selected)]
      else []);
  }

  /** Compact drawing never takes more than the configured number of lines, three at the least. */
  lemma LineCap(s: State, v: View)
    requires !v.showAll
    ensures |Lines(s, v)| <= if v.maxLines > 3 then v.maxLines else 3
  {
    hide HeadingFor, SummaryFor, OfferedAll, Ordered, Blocks;
  }

  /** In a reachable list every child line has its group's header line above it. */
  lemma HeadersInLines(s: State, v: View)
    requires Inv(s)
    ensures HeadersPrecede(Lines(s, v))
  {
    hide HeadingFor, SummaryFor, Drawn, Blocks, HeadersPrecede, RowHeadersPrecede, Inv;
    if AllRows(Blocks(s.tasks, v)) != [] {
      var drawn := Drawn(s.tasks, v);
      var lines := Lines(s, v);
      DrawnHeadersPrecede(s, v);
      assert lines[1..1 + |drawn|] == TaskLines(drawn);
      LinesHeadersPrecede(lines, drawn);
    } else {
      NoHeaders();
    }
  }

  lemma NoHeaders()
    ensures HeadersPrecede([])
  {
  }

  lemma LinesHeadersPrecede(lines: seq<Line>, rows: seq<Row>)
    requires |lines| >= 1 + |rows| && lines[0].Heading? && lines[1..1 + |rows|] == TaskLines(rows)
    requires forall i :: 1 + |rows| <= i < |lines| ==> !lines[i].TaskLine?
    requires RowHeadersPrecede(rows)
    ensures HeadersPrecede(lines)
  {
    forall i | 0 <= i < |lines| && lines[i].TaskLine? && lines[i].row.parent.Some?
      ensures exists j :: 0 <= j < i && lines[j] == TaskLine(Row(lines[i].row.parent.value, None))
    {
      assert lines[i] == lines[1..1 + |rows|][i - 1] == TaskLine(rows[i - 1]);
      assert HeaderBefore(rows, i - 1);
      var j :| 0 <= j < i - 1 && rows[j] == Row(rows[i - 1].parent.value, None);
      assert lines[j + 1] == lines[1..1 + |rows|][j] == TaskLine(rows[j]);
    }
  }

  /** Every child line has its group's header line somewhere above it. */
  ghost predicate HeadersPrecede(lines: seq<Line>) {
    forall i :: 0 <= i < |lines| && lines[i].TaskLine? && lines[i].row.parent.Some? ==>
      exists j :: 0 <= j < i && lines[j] == TaskLine(Row(lines[i].row.parent.value, None))
  }

  ghost predicate RowHeadersPrecede(rows: seq<Row>) {
    forall i :: 0 <= i < |rows| && rows[i].parent.Some? ==> HeaderBefore(rows, i)
  }

  ghost predicate HeaderBefore(rows: seq<Row>, i: nat)
    requires i < |rows| && rows[i].parent.Some?
  {
    exists j :: 0 <= j < i && rows[j] == Row(rows[i].parent.value, None)
  }

  lemma {:induction false} FlattenHeaders(offers: seq<seq<Row>>)
    requires forall k :: 0 <= k < |offers| ==> RowHeadersPrecede(offers[k])
    ensures RowHeadersPrecede(Flatten(offers))
  {
    if offers != [] {
      FlattenHeaders(offers[1..]);
      var first, rest, all := offers[0], Flatten(offers[1..]), Flatten(offers);
      forall i | 0 <= i < |all| && all[i].parent.Some? ensures HeaderBefore(all, i) {
        if i < |first| {
          assert HeaderBefore(first, i);
          var j :| 0 <= j < i && first[j] == Row(first[i].parent.value, None);
          assert all[j] == first[j];
        } else {
          assert HeaderBefore(rest, i - |first|);
          var j :| 0 <= j < i - |first| && rest[j] == Row(all[i].parent.value, None);
          assert all[|first| + j] == rest[j];
        }
      }
    }
  }

  lemma HeaderFirst(rows: seq<Row>, root: Task)
    requires rows != [] && rows[0] == Row(root, None)
    requires forall r :: r in rows && r.parent.Some? ==> r.parent.value == root
    ensures RowHeadersPrecede(rows)
  {
    forall i | 0 <= i < |rows| && rows[i].parent.Some? ensures HeaderBefore(rows, i) {
      assert rows[i] in rows;
    }
  }

  /** A group is finished only when each of its children is. */
  lemma FinishedGroup(s: State, v: View, b: Block, t: Task)
    requires Inv(s) && b in Blocks(s.tasks, v) && b.root.status == Completed && t in b.children
    ensures t.status == Completed
  {
    hide GroupProgress;
    assert t in Children(s.tasks, b.root.id);
    ProgressMeaning(s.tasks, b.root.id);
  }

  /** A block keeps its header unless all it has is finished. */
  lemma OfferedHeaders(s: State, v: View, b: Block, overflow: bool)
    requires Inv(s) && b in Blocks(s.tasks, v)
    ensures RowHeadersPrecede(Offered(s.tasks, b, overflow))
  {
    hide Inv, SortBy;
    var rows := RowsOf(b.(children := SortedChildren(s.tasks, b)));
    var p := (r: Row) => r.task.status != Completed;
    forall r | r in rows && r.parent.Some? ensures r.parent.value == b.root && r.task in b.children {}
    if overflow && b.root.status == Completed {
      forall r | r in rows ensures !p(r) {
        if r.parent.Some? {
          FinishedGroup(s, v, b, r.task);
        }
      }
      FilterNone(p, rows);
    } else {
      HeaderFirst(if overflow then Filter(p, rows) else rows, b.root);
    }
  }

  lemma PrefixHeaders(all: seq<Row>, n: nat)
    requires RowHeadersPrecede(all)
    ensures RowHeadersPrecede(Prefix(all, n))
  {
    var some := Prefix(all, n);
    forall i | 0 <= i < |some| && some[i].parent.Some? ensures HeaderBefore(some, i) {
      assert HeaderBefore(all, i);
      var j :| 0 <= j < i && all[j] == Row(all[i].parent.value, None);
      assert some[j] == all[j];
    }
  }

  /** In a reachable list no child is drawn without its group's header above it. */
  lemma DrawnHeadersPrecede(s: State, v: View)
    requires Inv(s)
    ensures RowHeadersPrecede(Drawn(s.tasks, v))
  {
    var ordered := Ordered(s.tasks, Blocks(s.tasks, v));
    var offers := OfferedAll(s.tasks, ordered, Overflows(s.tasks, v));
    forall k | 0 <= k < |offers| ensures RowHeadersPrecede(offers[k]) {
      assert ordered[k] in ordered;
      OfferedHeaders(s, v, ordered[k], Overflows(s.tasks, v));
    }
    FlattenHeaders(offers);
    PrefixHeaders(Flatten(offers), Room(s.tasks, v));
  }

  lemma OfferedSomeBlock(tasks: seq<Task>, bs: seq<Block>, row: Row)
    ensures row in Flatten(OfferedAll(tasks, bs, true)) <==> row.task.status != Completed && InSomeBlock(row, bs)
  {
    var offers := OfferedAll(tasks, bs, true);
    FlattenMember(offers, row);
    forall k | 0 <= k < |bs| ensures row in offers[k] <==> InBlock(row, bs[k]) && row.task.status != Completed {
      OfferedRows(tasks, bs[k], row);
    }
    if k :| 0 <= k < |bs| && row in offers[k] {
      assert bs[k] in bs;
    }
    if b :| b in bs && InBlock(row, b) && row.task.status != Completed {
      var k :| 0 <= k < |bs| && bs[k] == b;
      assert row in offers[k];
    }
  }

  /** Under overflow the ordered blocks offer exactly the unfinished rows. */
  lemma OfferedUnfinished(tasks: seq<Task>, v: View, row: Row)
    ensures row in Flatten(OfferedAll(tasks, Ordered(tasks, Blocks(tasks, v)), true)) <==>
      row.task.status != Completed && InSomeBlock(row, Blocks(tasks, v))
  {
    OfferedSomeBlock(tasks, Ordered(tasks, Blocks(tasks, v)), row);
  }

  /** When rows are left out, none that is drawn is finished, and room stays only if no unfinished row is missing. */
  lemma OverflowDrawsUnfinished(tasks: seq<Task>, v: View, row: Row)
    requires Overflows(tasks, v)
    ensures row in Drawn(tasks, v) ==> row.task.status != Completed && InSomeBlock(row, Blocks(tasks, v))
    ensures |Drawn(tasks, v)| < Room(tasks, v) && row.task.status != Completed && InSomeBlock(row, Blocks(tasks, v))
      ==> row in Drawn(tasks, v)
  {
    OfferedUnfinished(tasks, v, row);
  }

  predicate InSomeBlock(row: Row, bs: seq<Block>) {
    exists b :: b in bs && InBlock(row, b)
  }

  predicate InBlock(row: Row, b: Block) {
    row == Row(b.root, None) || (row.parent == Some(b.root) && row.task in b.children)
  }

  lemma OfferedRows(tasks: seq<Task>, b: Block, row: Row)
    ensures row in Offered(tasks, b, true) <==> InBlock(row, b) && row.task.status != Completed
  {
    var children := SortedChildren(tasks, b);
    var rows := RowsOf(b.(children := children));
    if InBlock(row, b) && row.parent.Some? {
      var i :| 0 <= i < |children| && children[i] == row.task;
      assert rows[i + 1] == row;
    }
  }
}
