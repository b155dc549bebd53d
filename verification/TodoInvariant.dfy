/** What every reachable todo list keeps. */
module TodoInvariant {
  import opened Prelude
  import opened TodoGraph
  import opened TodoState

  // ---- the invariant ----

  ghost predicate UniqueIds(tasks: seq<Task>) {
    forall i, j :: 0 <= i < j < |tasks| ==> tasks[i].id != tasks[j].id
  }

  /** Every dependency, of tombstones too, names a task that is still listed. */
  ghost predicate KnownDependencies(tasks: seq<Task>) {
    forall i, d :: 0 <= i < |tasks| && d in tasks[i].blockedBy ==> Find(tasks, d).Some?
  }

  ghost predicate NoCycle(tasks: seq<Task>) {
    Acyclic(Dependencies(tasks))
  }

  ghost predicate LiveGroup(tasks: seq<Task>, id: int) {
    exists g :: g in tasks && g.id == id && g.IsGroup() && g.Live() && g.parentId.None?
  }

  ghost predicate IsGroupId(tasks: seq<Task>, id: int) {
    exists g :: g in tasks && g.id == id && g.IsGroup()
  }

  /** One level of groups: live parents are live top-level groups, dependencies never touch a group. */
  ghost predicate WellNested(tasks: seq<Task>) {
    forall t :: t in tasks && t.Live() ==>
      && (t.parentId.Some? ==> !t.IsGroup() && LiveGroup(tasks, t.parentId.value))
      && (t.IsGroup() ==> t.blockedBy == [])
      && (forall d :: d in t.blockedBy ==> !IsGroupId(tasks, d))
  }

  ghost predicate Derived(tasks: seq<Task>) {
    forall t :: t in tasks && t.IsGroup() && t.Live() ==> t.status == GroupProgress(tasks, t.id).status
  }

  /** Active tasks that run side by side have owners, and different ones. */
  ghost predicate Exclusive(tasks: seq<Task>) {
    forall i, j :: 0 <= i < j < |tasks| && tasks[i].Active() && tasks[j].Active() ==> DistinctOwners(tasks[i], tasks[j])
  }

  /** Ids are given out once, in order. */
  ghost predicate Listed(s: State) {
    1 <= s.nextId && (forall i :: 0 <= i < |s.tasks| ==> 1 <= s.tasks[i].id < s.nextId) && UniqueIds(s.tasks)
  }

  /** The part of the invariant that status changes between live statuses cannot disturb. */
  ghost predicate Structured(s: State) {
    Listed(s) && KnownDependencies(s.tasks) && NoCycle(s.tasks)
  }

  ghost predicate Inv(s: State) {
    Structured(s) && WellNested(s.tasks) && Derived(s.tasks) && Exclusive(s.tasks)
  }

  // ---- looking things up ----

  lemma {:induction false} FindUnique(tasks: seq<Task>, t: Task)
    requires UniqueIds(tasks) && t in tasks
    ensures Find(tasks, t.id) == Some(t)
  {
    var u := Find(tasks, t.id).value;
    var i :| 0 <= i < |tasks| && tasks[i] == t;
    var j :| 0 <= j < |tasks| && tasks[j] == u;
    assert i == j;
  }

  lemma {:induction false} DependenciesUnique(tasks: seq<Task>)
    requires UniqueIds(tasks)
    ensures forall t :: t in tasks ==> t.id in Dependencies(tasks) && Dependencies(tasks)[t.id] == t.blockedBy
    ensures forall n :: n in Dependencies(tasks) ==> Find(tasks, n).Some?
  {
    if tasks != [] {
      var init, last := tasks[..|tasks| - 1], tasks[|tasks| - 1];
      assert tasks == init + [last];
      DependenciesUnique(init);
      forall n | n in Dependencies(tasks) ensures Find(tasks, n).Some? {
        if n != last.id {
          var t := Find(init, n).value;
          assert t in tasks;
        } else {
          assert last in tasks;
        }
      }
    }
  }

  /** In a listed graph, everything reached from listed ids is listed. */
  lemma OnlyKnownReached(tasks: seq<Task>, x: int, y: int)
    requires UniqueIds(tasks) && KnownDependencies(tasks)
    requires Find(tasks, x).Some? && Reaches(Dependencies(tasks), x, y)
    ensures Find(tasks, y).Some?
  {
    var g := Dependencies(tasks);
    DependenciesUnique(tasks);
    forall n | Find(tasks, n).Some? ensures n in g.Keys {}
    forall n, d | n in g.Keys && d in Out(g, n) ensures d in g.Keys {
      var t := Find(tasks, n).value;
      var i :| 0 <= i < |tasks| && tasks[i] == t;
      assert d in tasks[i].blockedBy;
    }
    var p :| PathFrom(g, p, x, y);
    ClosedAvoids(g, g.Keys, p);
  }

  /** With unique ids, the check on grouping finds no error exactly when the list is well nested. */
  lemma GroupingChecked(tasks: seq<Task>)
    requires UniqueIds(tasks)
    ensures GroupingError(tasks).None? <==> WellNested(tasks)
  {
    forall id ensures IsGroupId(tasks, id) <==> var t := Find(tasks, id); t.Some? && t.value.IsGroup() {
      if g :| g in tasks && g.id == id && g.IsGroup() {
        FindUnique(tasks, g);
      }
    }
    if WellNested(tasks) {
      forall i | 0 <= i < |tasks| && tasks[i].Live() ensures TaskGroupingError(tasks, tasks[i]).None? {
        var t := tasks[i];
        assert t in tasks;
        if t.parentId.Some? {
          var g :| g in tasks && g.id == t.parentId.value && g.IsGroup() && g.Live();
          FindUnique(tasks, g);
        }
      }
    }
    if GroupingError(tasks).None? {
      forall t | t in tasks && t.Live()
        ensures TaskGroupingError(tasks, t).None?
        ensures forall d :: d in t.blockedBy ==> !IsGroupId(tasks, d)
      {
        var i :| 0 <= i < |tasks| && tasks[i] == t;
        assert TaskGroupingError(tasks, tasks[i]).None?;
      }
      forall t | t in tasks && t.Live() && t.parentId.Some? ensures LiveGroup(tasks, t.parentId.value) {
        assert TaskGroupingError(tasks, t).None?;
        var g := Find(tasks, t.parentId.value).value;
        assert TaskGroupingError(tasks, g).None?;
      }
    }
  }

  // ---- changes of status only ----

  /** b is a with some statuses changed, and no task brought to life or deleted. */
  ghost predicate StatusOnly(a: seq<Task>, b: seq<Task>) {
    && |a| == |b|
    && forall i :: 0 <= i < |a| ==> b[i] == a[i].(status := b[i].status) && (a[i].Live() <==> b[i].Live())
  }

  lemma {:induction false} FindStatusOnly(a: seq<Task>, b: seq<Task>, id: int)
    requires StatusOnly(a, b)
    ensures Find(a, id).Some? <==> Find(b, id).Some?
  {
    if Find(a, id).Some? {
      var i :| 0 <= i < |a| && a[i] == Find(a, id).value;
      assert b[i] in b;
    }
    if Find(b, id).Some? {
      var i :| 0 <= i < |b| && b[i] == Find(b, id).value;
      assert a[i] in a;
    }
  }

  lemma {:induction false} DependenciesStatusOnly(a: seq<Task>, b: seq<Task>)
    requires StatusOnly(a, b)
    ensures Dependencies(a) == Dependencies(b)
  {
    if a != [] {
      DependenciesStatusOnly(a[..|a| - 1], b[..|b| - 1]);
    }
  }

  lemma StructuredStatusOnly(s: State, b: seq<Task>)
    requires Structured(s) && StatusOnly(s.tasks, b)
    ensures Structured(s.(tasks := b))
  {
    var a := s.tasks;
    DependenciesStatusOnly(a, b);
    forall t | t in b ensures 1 <= t.id < s.nextId {
      var i :| 0 <= i < |b| && b[i] == t;
      assert a[i] in a;
    }
    forall i, d | 0 <= i < |b| && d in b[i].blockedBy ensures Find(b, d).Some? {
      assert d in a[i].blockedBy;
      FindStatusOnly(a, b, d);
    }
  }

  lemma GroupIdStatusOnly(a: seq<Task>, b: seq<Task>, id: int)
    requires StatusOnly(a, b)
    ensures IsGroupId(b, id) ==> IsGroupId(a, id)
  {
    if g :| g in b && g.id == id && g.IsGroup() {
      var j :| 0 <= j < |b| && b[j] == g;
      assert a[j] in a;
    }
  }

  lemma WellNestedStatusOnly(a: seq<Task>, b: seq<Task>)
    requires WellNested(a) && StatusOnly(a, b)
    ensures WellNested(b)
  {
    forall t | t in b && t.Live()
      ensures t.parentId.Some? ==> !t.IsGroup() && LiveGroup(b, t.parentId.value)
      ensures t.IsGroup() ==> t.blockedBy == []
      ensures forall d :: d in t.blockedBy ==> !IsGroupId(b, d)
    {
      var i :| 0 <= i < |b| && b[i] == t;
      assert a[i] in a;
      if t.parentId.Some? {
        var g :| g in a && g.id == t.parentId.value && g.IsGroup() && g.Live() && g.parentId.None?;
        var j :| 0 <= j < |a| && a[j] == g;
        assert b[j] in b;
      }
      forall d | d in t.blockedBy ensures !IsGroupId(b, d) {
        GroupIdStatusOnly(a, b, d);
      }
    }
  }

  // ---- derived group status ----

  lemma {:induction false} FilterAgree<T(!new)>(p: T -> bool, a: seq<T>, b: seq<T>)
    requires |a| == |b|
    requires forall i :: 0 <= i < |a| ==> p(a[i]) == p(b[i]) && (p(a[i]) ==> a[i] == b[i])
    ensures Filter(p, a) == Filter(p, b)
  {
    if a != [] {
      FilterAgree(p, a[1..], b[1..]);
    }
  }

  /** Group status is the fold of the live children: none, all or some of them are done. */
  lemma ProgressMeaning(tasks: seq<Task>, id: int)
    ensures var children := Children(tasks, id);
      GroupProgress(tasks, id).status ==
        if children != [] && forall t :: t in children ==> t.status == Completed then Completed
        else if exists t :: t in children && t.status in {Completed, InProgress} then InProgress
        else Pending
  {
    var children := Children(tasks, id);
    var p := (t: Task) => t.status == Completed;
    var done := Filter(p, children);
    FilterAll(p, children);
    if done != [] {
      assert done[0] in children;
    } else {
      assert forall t :: t in children ==> t !in done;
    }
  }

  lemma {:induction false} FilterAll<T(!new)>(p: T -> bool, s: seq<T>)
    ensures |Filter(p, s)| == |s| <==> forall x :: x in s ==> p(x)
  {
    if s != [] {
      FilterAll(p, s[1..]);
      assert s == [s[0]] + s[1..];
    }
  }

  /** Deriving changes no live child, so it does not change what it derives from. */
  lemma DerivingKeepsChildren(s: State, id: int)
    requires WellNested(s.tasks)
    ensures Children(DeriveGroups(s).tasks, id) == Children(s.tasks, id)
  {
    var a, b := s.tasks, DeriveGroups(s).tasks;
    var p := (t: Task) => t.parentId == Some(id) && t.Live();
    forall i | 0 <= i < |a| ensures p(a[i]) == p(b[i]) && (p(a[i]) ==> a[i] == b[i]) {
      assert a[i] in a;
    }
    FilterAgree(p, a, b);
  }

  lemma DerivingKeepsProgress(s: State, id: int)
    requires WellNested(s.tasks)
    ensures GroupProgress(DeriveGroups(s).tasks, id) == GroupProgress(s.tasks, id)
  {
    hide WellNested, DeriveGroups, Children;
    DerivingKeepsChildren(s, id);
  }

  lemma DeriveGroupsDerives(s: State)
    requires WellNested(s.tasks)
    ensures Derived(DeriveGroups(s).tasks)
  {
    hide GroupProgress, WellNested;
    var b := DeriveGroups(s).tasks;
    forall t | t in b && t.IsGroup() && t.Live() ensures t.status == GroupProgress(b, t.id).status {
      var i :| 0 <= i < |b| && b[i] == t;
      DerivingKeepsProgress(s, t.id);
      assert b[i] == DeriveTask(s.tasks, s.tasks[i]);
    }
  }

  /** On a derived list there is nothing left to derive. */
  lemma DeriveGroupsIdempotent(s: State)
    requires Derived(s.tasks)
    ensures DeriveGroups(s) == s
  {
    forall i | 0 <= i < |s.tasks| ensures DeriveTask(s.tasks, s.tasks[i]) == s.tasks[i] {
      assert s.tasks[i] in s.tasks;
    }
    assert DeriveGroups(s).tasks == s.tasks;
  }

  /** Deriving completes the invariant once everything else holds. */
  lemma DerivingRestores(s: State)
    requires Structured(s) && WellNested(s.tasks) && Exclusive(s.tasks)
    ensures Inv(DeriveGroups(s))
  {
    var b := DeriveGroups(s).tasks;
    assert StatusOnly(s.tasks, b);
    StructuredStatusOnly(s, b);
    WellNestedStatusOnly(s.tasks, b);
    DeriveGroupsDerives(s);
  }

  // ---- each action ----

  /** A new task is reached by nobody, so its dependencies cannot close a cycle. */
  lemma NewTaskAcyclic(s: State, task: Task)
    requires Structured(s) && task.id == s.nextId
    requires forall d :: d in task.blockedBy ==> Find(s.tasks, d).Some?
    ensures NoCycle(s.tasks + [task])
  {
    var g := Dependencies(s.tasks);
    assert (s.tasks + [task])[..|s.tasks|] == s.tasks;
    DependenciesUnique(s.tasks);
    assert s.nextId !in g;
    if SomeReaches(g, task.blockedBy, s.nextId) {
      var a :| a in task.blockedBy && Reaches(g, a, s.nextId);
      OnlyKnownReached(s.tasks, a, s.nextId);
      assert false;
    }
    AcyclicExtended(g, Dependencies(s.tasks + [task]), s.nextId, task.blockedBy);
  }

  /** The tasks of a keep their places and ids in b. */
  ghost predicate SameIds(a: seq<Task>, b: seq<Task>) {
    |a| <= |b| && forall i :: 0 <= i < |a| ==> b[i].id == a[i].id
  }

  lemma FindKept(a: seq<Task>, b: seq<Task>, id: int)
    requires SameIds(a, b) && Find(a, id).Some?
    ensures Find(b, id).Some?
  {
    var j :| 0 <= j < |a| && a[j] == Find(a, id).value;
    assert b[j] in b;
  }

  lemma KnownKept(a: seq<Task>, b: seq<Task>)
    requires SameIds(a, b)
    requires forall i, d :: 0 <= i < |b| && d in b[i].blockedBy ==> Find(a, d).Some?
    ensures KnownDependencies(b)
  {
    hide Find;
    forall i, d | 0 <= i < |b| && d in b[i].blockedBy
      ensures Find(b, d).Some?
    {
      FindKept(a, b, d);
    }
  }

  lemma CreateKeeps(s: State, p: Params)
    requires Inv(s) && CreateTask(s, p).Next?
    ensures var n := CreateTask(s, p).state; Structured(n) && Exclusive(n.tasks)
  {
    hide WellNested, Derived, NoCycle, Trim, Present, Dedup;
    var n := CreateTask(s, p).state;
    var task := n.tasks[|s.tasks|];
    assert n.tasks == s.tasks + [task];
    CreatedKnown(s, p);
    NewTaskAcyclic(s, task);
    hide KnownDependencies, Find;
  }

  lemma CreatedKnown(s: State, p: Params)
    requires KnownDependencies(s.tasks) && CreateTask(s, p).Next?
    ensures var n := CreateTask(s, p).state;
      KnownDependencies(n.tasks) && forall d :: d in n.tasks[|s.tasks|].blockedBy ==> Find(s.tasks, d).Some?
  {
    hide Trim, Present, Find;
    var n := CreateTask(s, p).state;
    var task := n.tasks[|s.tasks|];
    forall d | d in task.blockedBy
      ensures Find(s.tasks, d).Some?
    {
    }
    forall i, d | 0 <= i < |n.tasks| && d in n.tasks[i].blockedBy
      ensures Find(s.tasks, d).Some?
    {
      assert i < |s.tasks| ==> n.tasks[i] == s.tasks[i];
    }
    KnownKept(s.tasks, n.tasks);
  }

  /** What an update does to the dependency graph. */
  lemma {:induction false} DependenciesReplaced(tasks: seq<Task>, id: int, next: Task)
    requires UniqueIds(tasks) && next.id == id && exists t :: t in tasks && t.id == id
    ensures Dependencies(ReplaceTask(tasks, id, next)) == Dependencies(tasks)[id := next.blockedBy]
  {
    hide Dependencies, ReplaceTask;
    var init, last := tasks[..|tasks| - 1], tasks[|tasks| - 1];
    assert tasks == init + [last];
    ReplacedSnoc(init, last, id, next);
    DependenciesSnoc(init, last);
    DependenciesSnoc(ReplaceTask(init, id, next), if last.id == id then next else last);
    if last.id == id {
      ReplacedNone(init, id, next);
    } else {
      DependenciesReplaced(init, id, next);
      UpdatesCommute(Dependencies(init), id, next.blockedBy, last.id, last.blockedBy);
    }
  }

  lemma UpdatesCommute(g: Graph, a: int, x: seq<int>, b: int, y: seq<int>)
    requires a != b
    ensures g[a := x][b := y] == g[b := y][a := x]
  {
  }

  lemma ReplacedSnoc(init: seq<Task>, last: Task, id: int, next: Task)
    ensures ReplaceTask(init + [last], id, next) == ReplaceTask(init, id, next) + [if last.id == id then next else last]
  {
  }

  lemma ReplacedNone(tasks: seq<Task>, id: int, next: Task)
    requires forall i :: 0 <= i < |tasks| ==> tasks[i].id != id
    ensures ReplaceTask(tasks, id, next) == tasks
  {
  }

  lemma DependenciesSnoc(init: seq<Task>, last: Task)
    ensures Dependencies(init + [last]) == Dependencies(init)[last.id := last.blockedBy]
  {
    assert (init + [last])[..|init|] == init;
  }

  lemma UpdateIsListed(s: State, p: Params, current: Task)
    requires Structured(s) && CheckUpdate(s, p) == Allowed(current)
    ensures current in s.tasks && p.id == Some(current.id)
    ensures var n := CommitUpdate(s, current, p).state;
      UniqueIds(n.tasks) && Find(n.tasks, current.id) == Some(UpdatedTask(current, p))
  {
    hide KnownDependencies, NoCycle;
    var n := CommitUpdate(s, current, p).state;
    var i :| 0 <= i < |s.tasks| && s.tasks[i] == current;
    assert n.tasks[i] in n.tasks;
    FindUnique(n.tasks, UpdatedTask(current, p));
  }

  lemma GraphAfterUpdate(s: State, p: Params, current: Task)
    requires Structured(s) && CheckUpdate(s, p) == Allowed(current)
    ensures var g, h := Dependencies(s.tasks), Dependencies(CommitUpdate(s, current, p).state.tasks);
      && (forall n :: n != current.id ==> Out(h, n) == Out(g, n))
      && Out(g, current.id) == current.blockedBy
      && Out(h, current.id) == UpdatedTask(current, p).blockedBy
  {
    UpdateIsListed(s, p, current);
    DependenciesReplaced(s.tasks, current.id, UpdatedTask(current, p));
    DependenciesUnique(s.tasks);
  }

  /** The cycle check refuses an update exactly when committing it would leave a cycle. */
  lemma CycleCheckExact(s: State, p: Params, current: Task)
    requires p.action == Update && Inv(s) && CheckUpdate(s, p) == Allowed(current)
    ensures ReduceAction(s, p) == Rejected(WouldCreateCycle) <==> !NoCycle(CommitUpdate(s, current, p).state.tasks)
  {
    var adding := AddedDependencies(current, p);
    var g, h := Dependencies(s.tasks), Dependencies(CommitUpdate(s, current, p).state.tasks);
    GraphAfterUpdate(s, p, current);
    if SomeReaches(g, adding, current.id) {
      CyclicExtended(g, h, current.id, adding);
    } else {
      AcyclicExtended(g, h, current.id, adding);
    }
  }

  lemma UpdateKeepsStructure(s: State, p: Params, current: Task)
    requires p.action == Update && Inv(s) && CheckUpdate(s, p) == Allowed(current) && ReduceAction(s, p).Next?
    ensures Structured(CommitUpdate(s, current, p).state)
  {
    CycleCheckExact(s, p, current);
    UpdateKeepsListed(s, p, current);
    UpdateKeepsKnown(s, p, current);
    hide NoCycle, WellNested, Derived, Exclusive, Listed, KnownDependencies, CommitUpdate, CheckUpdate;
  }

  lemma UpdateKeepsListed(s: State, p: Params, current: Task)
    requires Structured(s) && CheckUpdate(s, p) == Allowed(current)
    ensures Listed(CommitUpdate(s, current, p).state)
  {
    hide NoCycle, KnownDependencies, UpdatedTask;
    UpdateIsListed(s, p, current);
    var n := CommitUpdate(s, current, p).state;
    hide CheckUpdate;
    forall i | 0 <= i < |n.tasks|
      ensures n.tasks[i].id == s.tasks[i].id
    {
    }
  }

  lemma UpdateKeepsKnown(s: State, p: Params, current: Task)
    requires Structured(s) && CheckUpdate(s, p) == Allowed(current)
    ensures KnownDependencies(CommitUpdate(s, current, p).state.tasks)
  {
    hide NoCycle;
    UpdateIsListed(s, p, current);
    UpdatedDependencies(s, p, current);
    var n := CommitUpdate(s, current, p).state;
    var c :| 0 <= c < |s.tasks| && s.tasks[c] == current;
    hide CheckUpdate, UpdatedTask, Find;
    forall i, d | 0 <= i < |n.tasks| && d in n.tasks[i].blockedBy
      ensures Find(s.tasks, d).Some?
    {
    }
    KnownKept(s.tasks, n.tasks);
  }

  lemma UpdatedDependencies(s: State, p: Params, current: Task)
    requires KnownDependencies(s.tasks) && CheckUpdate(s, p) == Allowed(current) && current in s.tasks
    ensures UpdatedTask(current, p).id == current.id
    ensures forall d :: d in UpdatedTask(current, p).blockedBy ==> Find(s.tasks, d).Some?
  {
    var c :| 0 <= c < |s.tasks| && s.tasks[c] == current;
    hide Find;
    forall d | d in UpdatedTask(current, p).blockedBy
      ensures Find(s.tasks, d).Some?
    {
      assert d in current.blockedBy || d in p.addBlockedBy;
    }
  }

  /** Yielding leaves the updated task and those with other owners active, and nobody else. */
  lemma YieldingExcludes(tasks: seq<Task>, active: Task)
    requires UniqueIds(tasks) && active in tasks && active.Active()
    requires forall i, j ::
      (0 <= i < j < |tasks| && tasks[i].Active() && tasks[j].Active() &&
       tasks[i].id != active.id && tasks[j].id != active.id)
      ==> DistinctOwners(tasks[i], tasks[j])
    ensures Exclusive(MapTasks((t: Task) => YieldTask(active, t), tasks))
  {
    var b := MapTasks((t: Task) => YieldTask(active, t), tasks);
    forall i | 0 <= i < |tasks| && tasks[i].id == active.id ensures tasks[i] == active {
      FindUnique(tasks, active);
      FindUnique(tasks, tasks[i]);
    }
    forall i, j | 0 <= i < j < |b| && b[i].Active() && b[j].Active() ensures DistinctOwners(b[i], b[j]) {
      assert b[i] == tasks[i] && b[j] == tasks[j];
    }
  }

  lemma UpdateKeepsExclusive(s: State, p: Params, current: Task)
    requires p.action == Update && Inv(s) && CheckUpdate(s, p) == Allowed(current)
    ensures Exclusive(Exclude(CommitUpdate(s, current, p).state, p).tasks)
  {
    hide Listed, KnownDependencies, NoCycle, WellNested, Derived, Exclusive, CheckUpdate, UpdatedTask, UniqueIds;
    var n := CommitUpdate(s, current, p).state;
    var u := UpdatedTask(current, p);
    UpdateIsListed(s, p, current);
    CommittedAt(s, current, p);
    OthersExclude(s.tasks, n.tasks, u);
    if u.Active() {
      YieldingExcludes(n.tasks, u);
    }
  }

  lemma CommittedAt(s: State, current: Task, p: Params)
    ensures var b := CommitUpdate(s, current, p).state.tasks;
      && |b| == |s.tasks| && UpdatedTask(current, p).id == current.id
      && forall i :: 0 <= i < |b| ==> b[i] == if s.tasks[i].id == current.id then UpdatedTask(current, p)
        else s.tasks[i]
  {
  }

  /** Tasks that an update leaves alone stay exclusive, and all do when it leaves its own task idle. */
  lemma OthersExclude(a: seq<Task>, b: seq<Task>, u: Task)
    requires Exclusive(a) && |b| == |a| && forall i :: 0 <= i < |b| ==> b[i] == if a[i].id == u.id then u else a[i]
    ensures forall i, j ::
      (0 <= i < j < |b| && b[i].Active() && b[j].Active() && b[i].id != u.id && b[j].id != u.id) ==>
        DistinctOwners(b[i], b[j])
    ensures !u.Active() ==> Exclusive(b)
  {
    hide DistinctOwners;
  }

  lemma DeleteKeeps(s: State, p: Params)
    requires Inv(s) && DeleteTask(s, p).Next?
    ensures var n := DeleteTask(s, p).state; Structured(n) && Exclusive(n.tasks)
  {
    hide WellNested, Derived, Find;
    var n := DeleteTask(s, p).state;
    var a, b := s.tasks, n.tasks;
    assert |a| == |b| && forall i :: 0 <= i < |a| ==> b[i] == a[i] || b[i] == a[i].(status := Deleted);
    KnownKept(a, b);
    SameDependencies(a, b);
    hide KnownDependencies, Dependencies, Acyclic, DeleteTask;
  }

  lemma {:induction false} SameDependencies(a: seq<Task>, b: seq<Task>)
    requires |a| == |b| && forall i :: 0 <= i < |a| ==> a[i].id == b[i].id && a[i].blockedBy == b[i].blockedBy
    ensures Dependencies(a) == Dependencies(b)
  {
    if a != [] {
      SameDependencies(a[..|a| - 1], b[..|b| - 1]);
    }
  }

  /** Before grouping is checked and status derived, every action keeps the rest of the invariant. */
  lemma ActionKeeps(s: State, p: Params)
    requires Inv(s) && ReduceAction(s, p).Next?
    ensures var n := ReduceAction(s, p).state; Structured(n) && Exclusive(Exclude(n, p).tasks)
  {
    match p.action {
      case Create => CreateKeeps(s, p);
      case Update =>
        var current := CheckUpdate(s, p).current;
        UpdateKeepsStructure(s, p, current);
        UpdateKeepsExclusive(s, p, current);
      case Delete => DeleteKeeps(s, p);
      case Clear =>
        assert forall x, d :: d !in Out(Dependencies([]), x);
      case List =>
      case Get =>
    }
  }

  // ---- whole runs ----

  lemma EmptyInv()
    ensures Inv(EMPTY)
  {
    assert forall x, d :: d !in Out(Dependencies([]), x);
  }

  lemma StructuredUnique(s: State)
    requires Structured(s)
    ensures UniqueIds(s.tasks)
  {
  }

  /** One call keeps the invariant, and a refused call changes nothing. */
  lemma ReduceKeeps(s: State, p: Params)
    requires Inv(s)
    ensures Inv(Reduce(s, p).state)
    ensures Reduce(s, p).error.Some? ==> Reduce(s, p).state == s
  {
    hide Structured, WellNested, Exclusive, Derived, ReduceAction, GroupingError;
    var step := ReduceAction(s, p);
    if step.Next? {
      ActionKeeps(s, p);
      var n := step.state;
      StructuredUnique(n);
      GroupingChecked(n.tasks);
      if GroupingError(n.tasks).None? {
        var e := Exclude(n, p);
        assert StatusOnly(n.tasks, e.tasks);
        StructuredStatusOnly(n, e.tasks);
        WellNestedStatusOnly(n.tasks, e.tasks);
        DerivingRestores(e);
      }
    }
  }

  lemma PausedNobody(s: State)
    ensures var e := s.(tasks := MapTasks(PauseTask, s.tasks));
      StatusOnly(s.tasks, e.tasks) && Exclusive(e.tasks) && forall i :: 0 <= i < |e.tasks| ==> !e.tasks[i].Active()
  {
  }

  /** Groups are never active themselves, so deriving activates nobody. */
  lemma DerivingActivatesNobody(s: State)
    requires forall i :: 0 <= i < |s.tasks| ==> !s.tasks[i].Active()
    ensures forall t :: t in DeriveGroups(s).tasks ==> !t.Active()
  {
    hide GroupProgress;
  }

  lemma PausedIdle(s: State)
    ensures forall t :: t in PauseActive(s).tasks ==> !t.Active()
  {
    PausedNobody(s);
    DerivingActivatesNobody(s.(tasks := MapTasks(PauseTask, s.tasks)));
    hide DeriveGroups;
  }

  /** Pausing keeps the invariant and leaves nobody active. */
  lemma PauseKeeps(s: State)
    requires Inv(s)
    ensures Inv(PauseActive(s))
    ensures forall t :: t in PauseActive(s).tasks ==> !t.Active()
  {
    hide Structured, WellNested, Derived, Exclusive, StatusOnly, DeriveGroups;
    var e := s.(tasks := MapTasks(PauseTask, s.tasks));
    PausedNobody(s);
    StructuredStatusOnly(s, e.tasks);
    WellNestedStatusOnly(s.tasks, e.tasks);
    DerivingRestores(e);
    DerivingActivatesNobody(e);
  }

  datatype Event = Call(params: Params) | Pause

  ghost function Run(events: seq<Event>): State {
    if events == [] then EMPTY
    else
      var before := Run(events[..|events| - 1]);
      match events[|events| - 1]
      case Call(p) => Reduce(before, p).state
      case Pause => PauseActive(before)
  }

  /** Every list that calls and pauses can lead to from the empty one satisfies the whole invariant. */
  lemma {:induction false} ReachableInv(events: seq<Event>)
    ensures Inv(Run(events))
  {
    if events == [] {
      EmptyInv();
    } else {
      var before := Run(events[..|events| - 1]);
      ReachableInv(events[..|events| - 1]);
      match events[|events| - 1] {
        case Call(p) => ReduceKeeps(before, p);
        case Pause => PauseKeeps(before);
      }
    }
  }

  // ---- the history of one task ----

  /** How a listed task may differ after one call that is not `clear`; `named` is the task the call names. */
  ghost predicate Follows(before: Task, after: Task, named: bool) {
    && after.id == before.id
    && (before.IsGroup() ==> after.IsGroup())
    && (!before.Live() ==> !after.Live())
    && (!after.IsGroup() && after.status != before.status ==> CanMove(before.status, after.status))
    && (!after.IsGroup() && after.status == Completed && before.status != Completed ==> Present(after.evidence))
    && (NonEmpty(before.acceptanceCriteria).Some? ==> after.acceptanceCriteria == before.acceptanceCriteria)
    && (!named ==> after == before.(status := after.status))
    && (!named && !after.IsGroup() && after.status != before.status ==>
          before.status == InProgress && after.status == Pending)
  }

  lemma FollowsSelf(t: Task, named: bool)
    ensures Follows(t, t, named)
  {
  }

  lemma UpdatedFollows(current: Task, p: Params)
    requires UpdateError(current, p).None?
    ensures Follows(current, UpdatedTask(current, p), true)
  {
    hide Trim, KeptDependencies, AddedDependencies, MergeMetadata;
    var after := UpdatedTask(current, p);
    assert after.id == current.id;
    assert current.IsGroup() ==> after.IsGroup();
    assert after.status != current.status ==> CanMove(current.status, after.status);
  }

  /** The action by itself touches no task but the one it names. */
  lemma NextFollows(s: State, p: Params, i: nat)
    requires Inv(s) && p.action != Clear && ReduceAction(s, p).Next? && i < |s.tasks|
    ensures var n := ReduceAction(s, p).state;
      && i < |n.tasks| && n.tasks[i].id == s.tasks[i].id && Follows(s.tasks[i], n.tasks[i], p.id == Some(s.tasks[i].id))
      && (p.id != Some(s.tasks[i].id) ==> n.tasks[i] == s.tasks[i])
  {
    hide NoCycle, KnownDependencies, WellNested, Derived, Exclusive, DependencyError, Trim, Present, Dedup;
    var a := s.tasks[i];
    FindUnique(s.tasks, a);
    if p.action == Update {
      var current := CheckUpdate(s, p).current;
      UpdatedFollows(current, p);
    }
  }

  /** Excluding only returns active tasks to pending, and never the one the call names. */
  lemma ExcludedAt(n: State, p: Params, i: nat)
    requires i < |n.tasks|
    ensures |Exclude(n, p).tasks| == |n.tasks|
    ensures var t, u := n.tasks[i], Exclude(n, p).tasks[i];
      u == t || (p.id != Some(t.id) && t.Active() && u == t.(status := Pending))
  {
  }

  /** Deriving only adjusts the status of groups. */
  lemma DerivedAt(e: State, i: nat)
    requires i < |e.tasks|
    ensures |DeriveGroups(e).tasks| == |e.tasks|
    ensures var t, u := e.tasks[i], DeriveGroups(e).tasks[i];
      u == t || (t.IsGroup() && t.Live() && u == t.(status := u.status))
  {
  }

  lemma SettledFollows(before: Task, next: Task, yielded: Task, after: Task, named: bool)
    requires Follows(before, next, named) && (!named ==> next == before)
    requires yielded == next || (!named && next.Active() && yielded == next.(status := Pending))
    requires after == yielded || (yielded.IsGroup() && yielded.Live() && after == yielded.(status := after.status))
    ensures Follows(before, after, named)
  {
  }

  /**
    The status machine, kept for every task by every call: only legal transitions, tombstones stay,
    completion carries evidence, acceptance criteria stay, and a task the call does not name can
    only be returned to pending (or, as a group, have its status derived again). Positions never change.
   */
  lemma CallFollows(s: State, p: Params, i: nat)
    requires Inv(s) && p.action != Clear && i < |s.tasks|
    ensures var r := Reduce(s, p).state;
      i < |r.tasks| && Follows(s.tasks[i], r.tasks[i], p.id == Some(s.tasks[i].id))
  {
    hide Follows, Exclude, DeriveGroups, ReduceAction, Inv;
    var step := ReduceAction(s, p);
    FollowsSelf(s.tasks[i], p.id == Some(s.tasks[i].id));
    if step.Next? && GroupingError(step.state.tasks).None? {
      var n := step.state;
      var e := Exclude(n, p);
      NextFollows(s, p, i);
      ExcludedAt(n, p, i);
      DerivedAt(e, i);
      SettledFollows(s.tasks[i], n.tasks[i], e.tasks[i], DeriveGroups(e).tasks[i], p.id == Some(s.tasks[i].id));
    }
  }

  /** A call that starts a task leaves every other active task owned by somebody else. */
  lemma StartingExcludes(s: State, p: Params, t: Task, u: Task)
    requires Inv(s) && Reduce(s, p).error.None?
    requires t in Reduce(s, p).state.tasks && t.Active() && u in Reduce(s, p).state.tasks && u.Active() && t.id != u.id
    ensures DistinctOwners(t, u)
  {
    ReduceKeeps(s, p);
    var tasks := Reduce(s, p).state.tasks;
    var i :| 0 <= i < |tasks| && tasks[i] == t;
    var j :| 0 <= j < |tasks| && tasks[j] == u;
  }
}
