/**
  What each call does to the list, said of the list before and after it, and exactly when it is refused.
  Nothing here is said in terms of how the reducer computes its answer.
 */
module TodoEffects {
  import opened Prelude
  import opened TodoGraph
  import opened TodoState
  import opened TodoInvariant
  import TodoEdits

  // ---- words ----

  predicate Group(t: Task) {
    t.kind == Some(GroupKind)
  }

  /** An ordinary task in progress. */
  predicate Working(t: Task) {
    t.kind != Some(GroupKind) && t.status == InProgress
  }

  predicate Says(text: Option<string>) {
    text.Some? && !Blank(text.value)
  }

  /** Owners that are there, not blank, and differ but for white space around them. */
  predicate OwnersDiffer(a: Task, b: Task) {
    Says(a.owner) && Says(b.owner) && Trim(a.owner.value) != Trim(b.owner.value)
  }

  predicate Has(tasks: seq<Task>, id: int) {
    exists i :: 0 <= i < |tasks| && tasks[i].id == id
  }

  predicate HasLive(tasks: seq<Task>, id: int) {
    exists i :: 0 <= i < |tasks| && tasks[i].id == id && tasks[i].status != Deleted
  }

  ghost predicate HasLiveGroup(tasks: seq<Task>, id: int) {
    exists g :: g in tasks && g.id == id && Group(g) && g.status != Deleted
  }

  /** A live task directly under this group. */
  predicate Child(t: Task, group: int) {
    t.parentId == Some(group) && t.status != Deleted
  }

  /** The status that a group has from its live children. */
  ghost predicate StatusOf(tasks: seq<Task>, group: int, status: Status) {
    if (exists t :: t in tasks && Child(t, group))
       && (forall t :: t in tasks && Child(t, group) ==> t.status == Completed)
    then status == Completed
    else if exists t :: t in tasks && Child(t, group) && t.status in {Completed, InProgress} then status == InProgress
    else status == Pending
  }

  /** Groups follow their children, and whatever else is listed is as `t` says. */
  ghost predicate Becomes(tasks: seq<Task>, t: Task, after: Task) {
    if Group(t) && t.status != Deleted then after == t.(status := after.status) && StatusOf(tasks, t.id, after.status)
    else after == t
  }

  // ---- steps of the reducer ----

  lemma ProgressStatus(tasks: seq<Task>, id: int)
    ensures StatusOf(tasks, id, GroupProgress(tasks, id).status)
  {
    hide GroupProgress;
    ProgressMeaning(tasks, id);
    assert forall t :: t in Children(tasks, id) <==> t in tasks && Child(t, id);
    hide Children;
    var children := Children(tasks, id);
    if children != [] {
      assert children[0] in children;
    }
  }

  lemma DerivedBecomes(s: State, i: nat)
    requires WellNested(s.tasks) && i < |s.tasks|
    ensures |DeriveGroups(s).tasks| == |s.tasks| && DeriveGroups(s).nextId == s.nextId
    ensures Becomes(DeriveGroups(s).tasks, s.tasks[i], DeriveGroups(s).tasks[i])
  {
    hide GroupProgress, StatusOf, WellNested;
    DerivingKeepsProgress(s, s.tasks[i].id);
    ProgressStatus(DeriveGroups(s).tasks, s.tasks[i].id);
  }

  lemma ExcludedStatusOnly(n: State, p: Params)
    ensures StatusOnly(n.tasks, Exclude(n, p).tasks) && Exclude(n, p).nextId == n.nextId
  {
    hide Find, DistinctOwners;
  }

  /** What is left of the reducer once its action went through and grouping was checked. */
  lemma AcceptedSteps(s: State, p: Params)
    requires Inv(s) && Reduce(s, p).error.None? && ReduceAction(s, p).Next?
    ensures var n := ReduceAction(s, p).state;
      && Structured(n) && WellNested(n.tasks) && WellNested(Exclude(n, p).tasks)
      && Reduce(s, p).state == DeriveGroups(Exclude(n, p))
  {
    hide Structured, WellNested, Exclusive, Derived, ReduceAction, GroupingError, Exclude, DeriveGroups, StatusOnly;
    var n := ReduceAction(s, p).state;
    ActionKeeps(s, p);
    StructuredUnique(n);
    GroupingChecked(n.tasks);
    ExcludedStatusOnly(n, p);
    WellNestedStatusOnly(n.tasks, Exclude(n, p).tasks);
  }

  // ---- creating ----

  /** A text that is not empty; an empty one counts as none. */
  function Filled(text: Option<string>): Option<string> {
    if text == Some("") then None else text
  }

  /** The task a creation asks for. */
  ghost predicate AsAsked(t: Task, id: int, p: Params) {
    && t.id == id && Some(t.subject) == p.subject && t.status == Pending && t.evidence.None?
    && t.kind == (if p.kind == Some(GroupKind) then p.kind else None)
    && t.parentId == (if p.parentId.Under? then Some(p.parentId.id) else None)
    && t.acceptanceCriteria == (if Says(p.acceptanceCriteria) then Some(Trim(p.acceptanceCriteria.value)) else None)
    && t.description == Filled(p.description) && t.activeForm == Filled(p.activeForm) && t.owner == Filled(p.owner)
    && (forall d :: d in t.blockedBy <==> d in p.blockedBy) && Distinct(t.blockedBy)
    && t.metadata == (if p.metadata.Some? then p.metadata.value else map[])
  }

  lemma CreatedTask(s: State, p: Params)
    requires p.action == Create && CreateTask(s, p).Next?
    ensures var n := CreateTask(s, p).state;
      n.nextId == s.nextId + 1 && |n.tasks| == |s.tasks| + 1 && n.tasks[..|s.tasks|] == s.tasks
      && AsAsked(n.tasks[|s.tasks|], s.nextId, p)
  {
    hide Trim, DependencyError;
  }

  lemma NoChildrenYet(id: int, status: Status, tasks: seq<Task>)
    requires StatusOf(tasks, id, status) && forall t :: t in tasks ==> !Child(t, id)
    ensures status == Pending
  {
  }

  /**
    A creation that goes through adds the task asked for at the end, pending, and nothing else but what
    groups show.
   */
  lemma CreateEffect(s: State, p: Params)
    requires Inv(s) && p.action == Create && Reduce(s, p).error.None?
    ensures var r := Reduce(s, p).state;
      && r.nextId == s.nextId + 1 && |r.tasks| == |s.tasks| + 1
      && AsAsked(r.tasks[|s.tasks|], s.nextId, p)
      && forall i :: 0 <= i < |s.tasks| ==> Becomes(r.tasks, s.tasks[i], r.tasks[i])
  {
    CreateGoesThrough(s, p);
    hide CreateTask, DeriveGroups, StatusOf, Structured, GroupingError, AsAsked, Trim, Child, WellNested;
    var n := CreateTask(s, p).state;
    AcceptedSteps(s, p);
    CreatedTask(s, p);
    var r := Reduce(s, p).state;
    forall i | 0 <= i < |n.tasks|
      ensures |r.tasks| == |n.tasks| && r.nextId == n.nextId && Becomes(r.tasks, n.tasks[i], r.tasks[i])
    {
      DerivedBecomes(n, i);
    }
    forall i | 0 <= i < |s.tasks|
      ensures n.tasks[i] == s.tasks[i]
    {
      assert n.tasks[i] == n.tasks[..|s.tasks|][i];
    }
    NewStaysPending(s, p, n, r);
  }

  lemma CreateGoesThrough(s: State, p: Params)
    requires p.action == Create && Reduce(s, p).error.None?
    ensures ReduceAction(s, p) == CreateTask(s, p) && CreateTask(s, p).Next?
  {
    hide Trim, DependencyError;
  }

  lemma NewStaysPending(s: State, p: Params, n: State, r: State)
    requires Inv(s) && |n.tasks| == |s.tasks| + 1 == |r.tasks| && n.tasks[..|s.tasks|] == s.tasks
    requires AsAsked(n.tasks[|s.tasks|], s.nextId, p) && WellNested(n.tasks)
    requires forall i :: 0 <= i < |n.tasks| ==> Becomes(r.tasks, n.tasks[i], r.tasks[i])
    ensures r.tasks[|s.tasks|] == n.tasks[|s.tasks|]
  {
    hide StatusOf, Inv, WellNested, Trim;
    var t := n.tasks[|s.tasks|];
    if Group(t) {
      forall i | 0 <= i < |n.tasks|
        ensures !Child(r.tasks[i], t.id)
      {
        if n.tasks[i].status != Deleted {
          NoParentYet(s, n, i);
        }
      }
      NoChildrenYet(t.id, r.tasks[|s.tasks|].status, r.tasks);
    }
  }

  lemma NoParentYet(s: State, n: State, i: nat)
    requires Inv(s) && |n.tasks| == |s.tasks| + 1 && n.tasks[..|s.tasks|] == s.tasks && WellNested(n.tasks)
    requires i < |n.tasks| && n.tasks[i].status != Deleted && (i == |s.tasks| ==> Group(n.tasks[i]))
    ensures n.tasks[i].parentId != Some(s.nextId)
  {
    assert n.tasks[i] in n.tasks;
    if i < |s.tasks| {
      assert n.tasks[i] == n.tasks[..|s.tasks|][i];
      assert s.tasks[i] in s.tasks;
    }
  }

  // ---- updating ----

  function Asked<T>(wanted: Option<T>, before: T): T {
    if wanted.Some? then wanted.value else before
  }

  function AskedText(wanted: Option<string>, before: Option<string>): Option<string> {
    if wanted.Some? then Some(Trim(wanted.value)) else before
  }

  /** A change of metadata, key by key: a null takes the key away, anything else sets it. */
  ghost predicate Merged(before: map<string, Json>, change: Option<map<string, Json>>, after: map<string, Json>) {
    forall k ::
      if change.Some? && k in change.value then
        (k in after <==> change.value[k] != Null) && (k in after ==> after[k] == change.value[k])
      else (k in after <==> k in before) && (k in after ==> after[k] == before[k])
  }

  /** The task an update asks for, from the task as it was. */
  ghost predicate UpdatesTo(t: Task, p: Params, u: Task) {
    && u.id == t.id && u.status == Asked(p.status, t.status)
    && u.subject == Asked(p.subject, t.subject)
    && u.kind == (if p.kind.Some? then p.kind else t.kind)
    && u.parentId == (match p.parentId case Keep => t.parentId case Detach => None case Under(g) => Some(g))
    && u.description == (if p.description.Some? then p.description else t.description)
    && u.acceptanceCriteria == AskedText(p.acceptanceCriteria, t.acceptanceCriteria)
    && u.evidence == AskedText(p.evidence, t.evidence)
    && u.activeForm == (if p.activeForm.Some? then p.activeForm else t.activeForm)
    && u.owner == (if p.owner.Some? then p.owner else t.owner)
    && (forall d :: d in u.blockedBy <==> (d in t.blockedBy && d !in p.removeBlockedBy) || d in p.addBlockedBy)
    && Merged(t.metadata, p.metadata, u.metadata)
  }

  lemma MergedAsAsked(before: map<string, Json>, change: Option<map<string, Json>>)
    ensures Merged(before, change, if change.Some? then MergeMetadata(before, change.value) else before)
  {
  }

  lemma UpdatedAsAsked(t: Task, p: Params)
    ensures UpdatesTo(t, p, UpdatedTask(t, p))
  {
    MergedAsAsked(t.metadata, p.metadata);
    hide Trim, Merged, MergeMetadata;
  }

  /**
    What an update leaves of another task, before groups follow: it yields to a task that works under
    no other owner.
   */
  function Yields(u: Task, t: Task): Task {
    if Working(u) && Working(t) && !OwnersDiffer(u, t) then t.(status := Pending) else t
  }

  lemma YieldsAsSaid(u: Task, t: Task)
    requires t.id != u.id
    ensures (if u.Active() then YieldTask(u, t) else t) == Yields(u, t)
  {
    hide Trim;
  }

  lemma PlaceOf(tasks: seq<Task>, id: int) returns (c: nat)
    requires Find(tasks, id).Some?
    ensures c < |tasks| && tasks[c] == Find(tasks, id).value && tasks[c].id == id
  {
    c :| 0 <= c < |tasks| && tasks[c] == Find(tasks, id).value;
  }

  lemma UpdateGoesThrough(s: State, p: Params)
    requires Inv(s) && p.action == Update && Reduce(s, p).error.None?
    ensures p.id.Some? && Find(s.tasks, p.id.value).Some?
    ensures ReduceAction(s, p) == CommitUpdate(s, Find(s.tasks, p.id.value).value, p)
    ensures UpdateError(Find(s.tasks, p.id.value).value, p).None?
  {
    hide Inv, UpdateError, DependencyError, CommitUpdate, SomeReaches, GroupingError;
  }

  /** The list between the update and the derivation of groups. */
  lemma UpdateBetween(s: State, p: Params, c: nat)
    requires Inv(s) && p.action == Update && Reduce(s, p).error.None? && p.id.Some?
    requires c < |s.tasks| && s.tasks[c].id == p.id.value
    ensures var e := Exclude(ReduceAction(s, p).state, p);
      var u := UpdatedTask(s.tasks[c], p);
      && ReduceAction(s, p).Next? && e.nextId == s.nextId && |e.tasks| == |s.tasks| && e.tasks[c] == u
      && forall i :: 0 <= i < |s.tasks| && i != c ==> e.tasks[i] == Yields(u, s.tasks[i])
  {
    UpdateGoesThrough(s, p);
    hide Reduce, UpdatedTask, YieldTask, Yields, WellNested, Derived, Exclusive, KnownDependencies, NoCycle,
      UpdateError;
    FindUnique(s.tasks, s.tasks[c]);
    var t, u := s.tasks[c], UpdatedTask(s.tasks[c], p);
    var n := CommitUpdate(s, t, p).state;
    CommittedAt(s, t, p);
    UpdatedAsAsked(t, p);
    CommittedFind(s, t, p, c);
    forall i | 0 <= i < |s.tasks|
      ensures Exclude(n, p).tasks[i] == if i == c then u else Yields(u, s.tasks[i])
    {
      TodoEdits.ExcludeAt(n, p, i);
      if i != c {
        YieldsAsSaid(u, s.tasks[i]);
      } else {
        KeepsItself(u);
      }
    }
  }

  lemma KeepsItself(u: Task)
    ensures YieldTask(u, u) == u
  {
  }

  lemma CommittedFind(s: State, t: Task, p: Params, c: nat)
    requires UniqueIds(s.tasks) && c < |s.tasks| && s.tasks[c] == t && UpdatedTask(t, p).id == t.id
    ensures Find(CommitUpdate(s, t, p).state.tasks, t.id) == Some(UpdatedTask(t, p))
  {
    var n := CommitUpdate(s, t, p).state;
    assert n.tasks[c] in n.tasks;
    FindUnique(n.tasks, n.tasks[c]);
  }

  /**
    An update that goes through leaves the task as asked, or as it was where nothing was asked; a group has
    the status of its children. Every other task stays, but for those that yield, and groups that follow.
   */
  lemma UpdateEffect(s: State, p: Params) returns (c: nat)
    requires Inv(s) && p.action == Update && Reduce(s, p).error.None?
    ensures p.id.Some? && c < |s.tasks| && s.tasks[c].id == p.id.value
    ensures var r := Reduce(s, p).state;
      && r.nextId == s.nextId && |r.tasks| == |s.tasks|
      && (exists u :: UpdatesTo(s.tasks[c], p, u) && Becomes(r.tasks, u, r.tasks[c]))
      && forall i :: 0 <= i < |s.tasks| && i != c ==> Becomes(r.tasks, Yields(r.tasks[c], s.tasks[i]), r.tasks[i])
  {
    UpdateGoesThrough(s, p);
    c := PlaceOf(s.tasks, p.id.value);
    hide StatusOf, UpdatedTask, WellNested, Structured, ReduceAction, Exclude, DeriveGroups, UpdatesTo, Yields,
      GroupingError;
    var u := UpdatedTask(s.tasks[c], p);
    UpdateBetween(s, p, c);
    AcceptedSteps(s, p);
    UpdatedAsAsked(s.tasks[c], p);
    var e, r := Exclude(ReduceAction(s, p).state, p), Reduce(s, p).state;
    forall i | 0 <= i < |s.tasks|
      ensures |r.tasks| == |s.tasks| && r.nextId == s.nextId && Becomes(r.tasks, e.tasks[i], r.tasks[i])
    {
      DerivedBecomes(e, i);
    }
    WorksAlike(u, r.tasks[c], r.tasks, s.tasks);
  }

  lemma WorksAlike(u: Task, after: Task, tasks: seq<Task>, others: seq<Task>)
    requires Becomes(tasks, u, after)
    ensures forall i :: 0 <= i < |others| ==> Yields(after, others[i]) == Yields(u, others[i])
  {
    hide StatusOf, Trim;
  }

  // ---- deleting, clearing, reading, pausing ----

  lemma DeletedAt(s: State, p: Params, i: nat)
    requires DeleteTask(s, p).Next? && i < |s.tasks|
    ensures p.id.Some? && HasLive(s.tasks, p.id.value)
    ensures var n := DeleteTask(s, p).state;
      && n.nextId == s.nextId && |n.tasks| == |s.tasks|
      && n.tasks[i] == if s.tasks[i].id == p.id.value then s.tasks[i].(status := Deleted) else s.tasks[i]
  {
    var c := PlaceOf(s.tasks, p.id.value);
    hide Find;
  }

  lemma DeleteGoesThrough(s: State, p: Params)
    requires p.action == Delete && Reduce(s, p).error.None?
    ensures ReduceAction(s, p) == DeleteTask(s, p) && DeleteTask(s, p).Next?
  {
    hide Find;
  }

  /** A deletion that goes through leaves a tombstone, and nothing else changes but what groups show. */
  lemma DeleteEffect(s: State, p: Params, i: nat)
    requires Inv(s) && p.action == Delete && Reduce(s, p).error.None? && i < |s.tasks|
    ensures p.id.Some? && HasLive(s.tasks, p.id.value)
    ensures var r := Reduce(s, p).state;
      && r.nextId == s.nextId && |r.tasks| == |s.tasks|
      && if s.tasks[i].id == p.id.value then r.tasks[i] == s.tasks[i].(status := Deleted)
         else Becomes(r.tasks, s.tasks[i], r.tasks[i])
  {
    DeleteGoesThrough(s, p);
    DeletedAt(s, p, i);
    hide StatusOf, WellNested, Structured, DeleteTask, DeriveGroups, HasLive, GroupingError, Find, ReduceAction;
    AcceptedSteps(s, p);
    assert Exclude(DeleteTask(s, p).state, p) == DeleteTask(s, p).state;
    DerivedBecomes(DeleteTask(s, p).state, i);
  }

  /** Clearing always goes through and leaves the empty list, which counts from 1; reading changes nothing. */
  lemma ClearAndReadEffect(s: State, p: Params)
    ensures p.action == Clear ==>
      Reduce(s, p).error.None? && Reduce(s, p).state.tasks == [] && Reduce(s, p).state.nextId == 1
    ensures p.action in {List, Get} ==> Reduce(s, p).state == s
    ensures p.action == List ==> Reduce(s, p).error.None?
    ensures p.action == Get ==> (Reduce(s, p).error.None? <==> p.id.Some? && Has(s.tasks, p.id.value))
  {
    if p.action == Get && p.id.Some? && Find(s.tasks, p.id.value).Some? {
      var c := PlaceOf(s.tasks, p.id.value);
    }
    hide Find, Dependencies;
  }

  /** Pausing returns every task in progress to pending, and nothing else changes but what groups show. */
  lemma PauseEffect(s: State, i: nat)
    requires Inv(s) && i < |s.tasks|
    ensures var r := PauseActive(s);
      && r.nextId == s.nextId && |r.tasks| == |s.tasks|
      && Becomes(r.tasks, if Working(s.tasks[i]) then s.tasks[i].(status := Pending) else s.tasks[i], r.tasks[i])
  {
    var e := s.(tasks := MapTasks(PauseTask, s.tasks));
    assert StatusOnly(s.tasks, e.tasks);
    WellNestedStatusOnly(s.tasks, e.tasks);
    hide StatusOf, WellNested, DeriveGroups, Structured, Derived, Exclusive;
    DerivedBecomes(e, i);
  }

  // ---- when a call is refused ----

  /** The moves between statuses that there are. */
  const MOVES: set<(Status, Status)> := {
    (Pending, InProgress), (Pending, Completed), (Pending, Deleted),
    (InProgress, Pending), (InProgress, Completed), (InProgress, Deleted), (Completed, Deleted)}

  lemma MovesListed(before: Status, after: Status)
    ensures CanMove(before, after) <==> (before, after) in MOVES
  {
  }

  /** Dependencies that may be added: listed and live. */
  predicate Addable(tasks: seq<Task>, deps: seq<int>) {
    forall d :: d in deps ==> HasLive(tasks, d)
  }

  lemma LinkableLive(tasks: seq<Task>, d: int, self: Option<int>)
    requires UniqueIds(tasks)
    ensures TodoEdits.Linkable(tasks, d, self) <==> Some(d) != self && HasLive(tasks, d)
  {
    if HasLive(tasks, d) {
      var i :| 0 <= i < |tasks| && tasks[i].id == d && tasks[i].status != Deleted;
      FindUnique(tasks, tasks[i]);
    }
    if Find(tasks, d).Some? {
      var c := PlaceOf(tasks, d);
    }
    hide Find, UniqueIds;
  }

  lemma AddableExactly(tasks: seq<Task>, deps: seq<int>, self: Option<int>)
    requires UniqueIds(tasks)
    ensures DependencyError(tasks, deps, self).None? <==>
      Addable(tasks, deps) && forall d :: d in deps ==> Some(d) != self
  {
    TodoEdits.DependencyErrorExact(tasks, deps, self);
    hide DependencyError, TodoEdits.Linkable, HasLive, UniqueIds;
    forall d
      ensures TodoEdits.Linkable(tasks, d, self) <==> Some(d) != self && HasLive(tasks, d)
    {
      LinkableLive(tasks, d, self);
    }
  }

  lemma PresentSays(text: Option<string>)
    ensures Present(text) <==> Says(text)
  {
    hide Trim, Blank;
  }

  lemma GroupedExactly(s: State, p: Params)
    requires Inv(s) && ReduceAction(s, p).Next?
    ensures Reduce(s, p).error.None? <==> WellNested(ReduceAction(s, p).state.tasks)
  {
    hide Structured, WellNested, Exclusive, Derived, ReduceAction, GroupingError, Exclude, DeriveGroups;
    ActionKeeps(s, p);
    StructuredUnique(ReduceAction(s, p).state);
    GroupingChecked(ReduceAction(s, p).state.tasks);
  }

  /** Where a new task may stand: under a live group unless it is one itself, and with dependencies on tasks only. */
  ghost predicate Nests(tasks: seq<Task>, p: Params) {
    && (p.parentId.Under? ==> p.kind != Some(GroupKind) && HasLiveGroup(tasks, p.parentId.id))
    && (p.kind == Some(GroupKind) ==> p.blockedBy == [])
    && forall g :: g in tasks && Group(g) ==> g.id !in p.blockedBy
  }

  /** What the nesting rules ask of one live task. */
  ghost predicate NestedIn(tasks: seq<Task>, t: Task) {
    && (t.parentId.Some? ==> !Group(t) && LiveGroup(tasks, t.parentId.value))
    && (Group(t) ==> t.blockedBy == [])
    && (forall d :: d in t.blockedBy ==> !IsGroupId(tasks, d))
  }

  lemma NestedEach(tasks: seq<Task>)
    ensures WellNested(tasks) <==> forall t :: t in tasks && t.status != Deleted ==> NestedIn(tasks, t)
  {
  }

  lemma GroupsAdded(tasks: seq<Task>, t: Task, id: int)
    requires t !in tasks
    ensures LiveGroup(tasks + [t], id) <==>
      LiveGroup(tasks, id) || (t.id == id && Group(t) && t.status != Deleted && t.parentId.None?)
    ensures IsGroupId(tasks + [t], id) <==> IsGroupId(tasks, id) || (t.id == id && Group(t))
  {
    var all := tasks + [t];
    assert forall u :: u in all <==> u in tasks || u == t;
  }

  lemma OldNested(s: State, t: Task, u: Task)
    requires Inv(s) && t.id == s.nextId && u in s.tasks && u.status != Deleted && t !in s.tasks
    ensures NestedIn(s.tasks + [t], u)
  {
    hide LiveGroup, IsGroupId, NoCycle, Derived, Exclusive;
    NestedEach(s.tasks);
    if u.parentId.Some? {
      GroupsAdded(s.tasks, t, u.parentId.value);
    }
    forall d | d in u.blockedBy
      ensures !IsGroupId(s.tasks + [t], d)
    {
      GroupsAdded(s.tasks, t, d);
      var i :| 0 <= i < |s.tasks| && s.tasks[i] == u;
      var f := Find(s.tasks, d).value;
      assert f in s.tasks && f.id == d;
    }
  }

  lemma NewNested(s: State, t: Task, p: Params)
    requires Inv(s) && AsAsked(t, s.nextId, p) && Addable(s.tasks, p.blockedBy) && t !in s.tasks
    ensures NestedIn(s.tasks + [t], t) <==> Nests(s.tasks, p)
  {
    hide Trim, NoCycle, Derived, Exclusive, LiveGroup, IsGroupId, WellNested;
    if p.parentId.Under? {
      GroupsAdded(s.tasks, t, p.parentId.id);
      TopGroups(s, p.parentId.id);
    }
    forall d | d in p.blockedBy
      ensures IsGroupId(s.tasks + [t], d) <==> exists g :: g in s.tasks && Group(g) && g.id == d
    {
      GroupsAdded(s.tasks, t, d);
      var i :| 0 <= i < |s.tasks| && s.tasks[i].id == d;
      GroupIds(s.tasks, d);
    }
    assert t.blockedBy == [] <==> p.blockedBy == [] by {
      SameMembersEmpty(t.blockedBy, p.blockedBy);
    }
  }

  lemma SameMembersEmpty(a: seq<int>, b: seq<int>)
    requires forall d :: d in a <==> d in b
    ensures a == [] <==> b == []
  {
    if a != [] {
      var d := a[0];
      assert d in a;
      assert d in b;
    }
    if b != [] {
      var d := b[0];
      assert d in b;
      assert d in a;
    }
  }

  lemma GroupIds(tasks: seq<Task>, d: int)
    ensures IsGroupId(tasks, d) <==> exists g :: g in tasks && Group(g) && g.id == d
  {
  }

  lemma TopGroups(s: State, id: int)
    requires WellNested(s.tasks)
    ensures LiveGroup(s.tasks, id) <==> exists g :: g in s.tasks && g.id == id && Group(g) && g.status != Deleted
  {
  }

  lemma NewNests(s: State, p: Params, n: State)
    requires Inv(s) && |n.tasks| == |s.tasks| + 1 && n.tasks[..|s.tasks|] == s.tasks
    requires AsAsked(n.tasks[|s.tasks|], s.nextId, p) && Addable(s.tasks, p.blockedBy)
    ensures WellNested(n.tasks) <==> Nests(s.tasks, p)
  {
    hide Trim, WellNested, NestedIn, Nests, Addable, NoCycle, KnownDependencies, Derived, Exclusive;
    var t := n.tasks[|s.tasks|];
    assert n.tasks == s.tasks + [t];
    assert t !in s.tasks;
    NestedEach(n.tasks);
    NewNested(s, t, p);
    forall u | u in n.tasks && u.status != Deleted && u != t
      ensures NestedIn(n.tasks, u)
    {
      OldNested(s, t, u);
    }
    assert t in n.tasks;
  }

  /**
    A creation goes through exactly when it has a subject, a completion check unless it is a group, live
    dependencies, and a place to stand.
   */
  lemma CreateAccepted(s: State, p: Params)
    requires Inv(s) && p.action == Create
    ensures Reduce(s, p).error.None? <==>
      && Says(p.subject) && (p.kind == Some(GroupKind) || Says(p.acceptanceCriteria))
      && Addable(s.tasks, p.blockedBy) && Nests(s.tasks, p)
  {
    hide WellNested, Nests, Structured, Exclusive, Derived, Addable, AsAsked, GroupingError, Present, Says;
    TodoEdits.CreatedExactly(s, p);
    PresentSays(p.subject);
    PresentSays(p.acceptanceCriteria);
    UniqueListed(s);
    LinkablesAddable(s.tasks, p.blockedBy);
    if CreateTask(s, p).Next? {
      CreatedTask(s, p);
      GroupedExactly(s, p);
      NewNests(s, p, CreateTask(s, p).state);
    } else if Reduce(s, p).error.None? {
      CreateGoesThrough(s, p);
    }
  }

  lemma UniqueListed(s: State)
    requires Inv(s)
    ensures UniqueIds(s.tasks)
  {
  }

  lemma LinkablesAddable(tasks: seq<Task>, deps: seq<int>)
    requires UniqueIds(tasks)
    ensures Addable(tasks, deps) <==> forall d :: d in deps ==> TodoEdits.Linkable(tasks, d, None)
  {
    hide TodoEdits.Linkable, HasLive, UniqueIds;
    forall d
      ensures TodoEdits.Linkable(tasks, d, None) <==> HasLive(tasks, d)
    {
      LinkableLive(tasks, d, None);
    }
  }

  predicate NothingAsked(p: Params) {
    && p.subject.None? && p.kind.None? && p.parentId.Keep? && p.description.None? && p.acceptanceCriteria.None?
    && p.evidence.None? && p.activeForm.None? && p.status.None? && p.owner.None? && p.metadata.None?
    && p.addBlockedBy == [] && p.removeBlockedBy == []
  }

  /** Completion checks stay as they are once there is one. */
  predicate Keeps(before: Option<string>, wanted: string) {
    before.None? || before == Some("") || before == Some(Trim(wanted))
  }

  /** What can be asked of a task, before other tasks are looked at. */
  ghost predicate Askable(t: Task, p: Params) {
    && !NothingAsked(p)
    && (p.kind == Some(GroupKind) || (p.kind.None? && Group(t)) ==> p.status.None? || p.status == Some(Deleted))
    && !(Group(t) && p.kind == Some(TaskKind))
    && (p.status.Some? ==> p.status.value == t.status || (t.status, p.status.value) in MOVES)
    && (p.acceptanceCriteria.Some? ==>
          Says(p.acceptanceCriteria) && Keeps(t.acceptanceCriteria, p.acceptanceCriteria.value))
    && (p.status == Some(Completed) && t.status != Completed ==> Says(p.evidence))
  }

  lemma AskableExactly(t: Task, p: Params)
    ensures UpdateError(t, p).None? <==> Askable(t, p)
  {
    hide CanMove, Trim, Says, Present;
    PresentSays(p.acceptanceCriteria);
    PresentSays(p.evidence);
    if p.status.Some? {
      MovesListed(t.status, p.status.value);
    }
    assert Mutates(p) <==> !NothingAsked(p);
  }

  /** The list with one task in the place of the one of its id. */
  function With(tasks: seq<Task>, u: Task): seq<Task> {
    MapTasks((t: Task) => if t.id == u.id then u else t, tasks)
  }

  /** Whether the list nests is the same for any two tasks that differ only in the order of dependencies. */
  lemma NestsAlike(tasks: seq<Task>, u: Task, v: Task)
    requires v == u.(blockedBy := v.blockedBy) && forall d :: d in u.blockedBy <==> d in v.blockedBy
    requires WellNested(With(tasks, u))
    ensures WellNested(With(tasks, v))
  {
    hide NestedIn, LiveGroup, IsGroupId;
    var a, b := With(tasks, u), With(tasks, v);
    NestedEach(a);
    NestedEach(b);
    hide WellNested;
    forall t | t in b && t.status != Deleted
      ensures NestedIn(b, t)
    {
      var i :| 0 <= i < |b| && b[i] == t;
      assert a[i] in a;
      GroupsSame(a, b);
      NestedSame(a, b, a[i], t);
    }
  }

  lemma GroupsSame(a: seq<Task>, b: seq<Task>)
    requires |a| == |b| && forall i :: 0 <= i < |a| ==> b[i] == a[i].(blockedBy := b[i].blockedBy)
    ensures forall id :: (LiveGroup(a, id) <==> LiveGroup(b, id)) && (IsGroupId(a, id) <==> IsGroupId(b, id))
  {
    forall id
      ensures LiveGroup(a, id) ==> LiveGroup(b, id)
      ensures IsGroupId(a, id) ==> IsGroupId(b, id)
    {
      GroupsOver(a, b, id);
    }
    forall id
      ensures LiveGroup(b, id) ==> LiveGroup(a, id)
      ensures IsGroupId(b, id) ==> IsGroupId(a, id)
    {
      GroupsOver(b, a, id);
    }
  }

  lemma GroupsOver(a: seq<Task>, b: seq<Task>, id: int)
    requires |a| == |b| && forall i :: 0 <= i < |a| ==> b[i] == a[i].(blockedBy := b[i].blockedBy)
    ensures (LiveGroup(a, id) ==> LiveGroup(b, id)) && (IsGroupId(a, id) ==> IsGroupId(b, id))
  {
    if LiveGroup(a, id) {
      var g :| g in a && g.id == id && g.IsGroup() && g.Live() && g.parentId.None?;
      var i :| 0 <= i < |a| && a[i] == g;
      assert b[i] in b;
    }
    if IsGroupId(a, id) {
      var g :| g in a && g.id == id && g.IsGroup();
      var i :| 0 <= i < |a| && a[i] == g;
      assert b[i] in b;
    }
  }

  lemma NestedSame(a: seq<Task>, b: seq<Task>, t: Task, u: Task)
    requires NestedIn(a, t) && u == t.(blockedBy := u.blockedBy) && forall d :: d in t.blockedBy <==> d in u.blockedBy
    requires forall id :: (LiveGroup(a, id) <==> LiveGroup(b, id)) && (IsGroupId(a, id) <==> IsGroupId(b, id))
    ensures NestedIn(b, u)
  {
    SameMembersEmpty(t.blockedBy, u.blockedBy);
    hide LiveGroup, IsGroupId;
  }

  lemma UpdatesToOne(t: Task, p: Params, u: Task, v: Task)
    requires UpdatesTo(t, p, u) && UpdatesTo(t, p, v)
    ensures v == u.(blockedBy := v.blockedBy) && forall d :: d in u.blockedBy <==> d in v.blockedBy
  {
    hide Trim;
    assert u.metadata == v.metadata by {
      MergedOnce(t.metadata, p.metadata, u.metadata, v.metadata);
    }
  }

  lemma MergedOnce(before: map<string, Json>, change: Option<map<string, Json>>,
                   a: map<string, Json>, b: map<string, Json>)
    requires Merged(before, change, a) && Merged(before, change, b)
    ensures a == b
  {
    assert forall k :: k in a <==> k in b;
  }

  /** No added dependency leads back to the task. */
  ghost predicate ClosesNothing(tasks: seq<Task>, t: Task, added: seq<int>) {
    forall d :: d in added ==> !Reaches(Dependencies(tasks), d, t.id)
  }

  lemma CycleAdded(s: State, t: Task, p: Params)
    requires Inv(s) && t in s.tasks
    ensures SomeReaches(Dependencies(s.tasks), AddedDependencies(t, p), t.id) <==>
      !ClosesNothing(s.tasks, t, p.addBlockedBy)
  {
    hide WellNested, Derived, Exclusive, KnownDependencies, Dependencies, Reaches;
    var g := Dependencies(s.tasks);
    DependenciesUnique(s.tasks);
    forall d | d in p.addBlockedBy && d !in AddedDependencies(t, p)
      ensures !Reaches(g, d, t.id)
    {
      assert d in t.blockedBy && d in Out(g, t.id);
    }
  }

  /** All that an update needs: its task, and the task that it asks for. */
  ghost predicate Grants(s: State, p: Params, t: Task, u: Task) {
    && t in s.tasks && p.id == Some(t.id) && Askable(t, p) && UpdatesTo(t, p, u)
    && Addable(s.tasks, p.addBlockedBy) && t.id !in p.addBlockedBy
    && ClosesNothing(s.tasks, t, p.addBlockedBy) && WellNested(With(s.tasks, u))
  }

  /**
    An update goes through exactly when its task is listed, it can be asked of it, what it adds are other
    live tasks none of which depends on it, and the list with the task as asked nests.
   */
  lemma UpdateAccepted(s: State, p: Params)
    requires Inv(s) && p.action == Update
    ensures Reduce(s, p).error.None? <==>
      exists t, u :: Grants(s, p, t, u)
  {
    hide WellNested, Structured, Exclusive, Derived, Askable, UpdatesTo, Addable, ClosesNothing, UpdateError,
      UpdatedTask,
      GroupingError, SomeReaches, AddedDependencies, DependencyError, DeriveGroups, Exclude;
    if Reduce(s, p).error.None? {
      UpdateGoesThrough(s, p);
      var t := Find(s.tasks, p.id.value).value;
      UpdateStep(s, p, t);
      GroupedExactly(s, p);
      UpdatedAsAsked(t, p);
      CommitIsWith(s, t, p);
      assert Grants(s, p, t, UpdatedTask(t, p));
    }
    if t, u :| Grants(s, p, t, u) {
      UniqueListed(s);
      FindUnique(s.tasks, t);
      UpdateStep(s, p, t);
      UpdatedAsAsked(t, p);
      UpdatesToOne(t, p, u, UpdatedTask(t, p));
      NestsAlike(s.tasks, u, UpdatedTask(t, p));
      CommitIsWith(s, t, p);
      GroupedExactly(s, p);
    }
  }

  lemma CommitIsWith(s: State, t: Task, p: Params)
    requires UpdatedTask(t, p).id == t.id || UpdatesTo(t, p, UpdatedTask(t, p))
    ensures CommitUpdate(s, t, p).state.tasks == With(s.tasks, UpdatedTask(t, p))
  {
    hide UpdatedTask, Trim, Merged;
  }

  lemma UpdateStep(s: State, p: Params, t: Task)
    requires Inv(s) && p.action == Update && p.id == Some(t.id) && Find(s.tasks, t.id) == Some(t)
    ensures ReduceAction(s, p).Next? <==>
      && Askable(t, p) && Addable(s.tasks, p.addBlockedBy) && t.id !in p.addBlockedBy
      && ClosesNothing(s.tasks, t, p.addBlockedBy)
    ensures ReduceAction(s, p).Next? ==> ReduceAction(s, p) == CommitUpdate(s, t, p)
  {
    UniqueListed(s);
    AskableExactly(t, p);
    AddableExactly(s.tasks, p.addBlockedBy, Some(t.id));
    CycleAdded(s, t, p);
    hide Inv, Askable, Addable, ClosesNothing, UpdateError, DependencyError, SomeReaches, AddedDependencies,
      UpdatedTask, Find;
  }

  /** A deletion goes through exactly when its task is listed and live, and no live task stands under it. */
  lemma DeleteAccepted(s: State, p: Params)
    requires Inv(s) && p.action == Delete
    ensures Reduce(s, p).error.None? <==>
      p.id.Some? && HasLive(s.tasks, p.id.value) && !exists t :: t in s.tasks && Child(t, p.id.value)
  {
    hide WellNested, Structured, Exclusive, Derived, GroupingError, Exclude, DeriveGroups, HasLive, Child;
    if Reduce(s, p).error.None? {
      DeleteGoesThrough(s, p);
    }
    DeleteStep(s, p);
    if DeleteTask(s, p).Next? {
      GroupedExactly(s, p);
      DeletedNests(s, p);
    }
  }

  lemma DeleteStep(s: State, p: Params)
    requires Inv(s)
    ensures DeleteTask(s, p).Next? <==> p.id.Some? && HasLive(s.tasks, p.id.value)
  {
    if p.id.Some? {
      UniqueListed(s);
      LinkableLive(s.tasks, p.id.value, None);
    }
    hide Inv, HasLive, Find;
  }

  lemma DeletedNests(s: State, p: Params)
    requires Inv(s) && DeleteTask(s, p).Next?
    ensures WellNested(DeleteTask(s, p).state.tasks) <==> !exists t :: t in s.tasks && Child(t, p.id.value)
  {
    hide DeleteTask, Inv, WellNested, Child, HasLive;
    var n := DeleteTask(s, p).state;
    SameLength(s, p);
    forall i | 0 <= i < |s.tasks|
      ensures n.tasks[i] == if s.tasks[i].id == p.id.value then s.tasks[i].(status := Deleted) else s.tasks[i]
    {
      DeletedAt(s, p, i);
    }
    if t :| t in s.tasks && Child(t, p.id.value) {
      ChildForbids(s, n.tasks, p.id.value, t);
    } else {
      ChildlessNests(s, n.tasks, p.id.value);
    }
  }

  lemma SameLength(s: State, p: Params)
    requires DeleteTask(s, p).Next?
    ensures p.id.Some? && |DeleteTask(s, p).state.tasks| == |s.tasks|
  {
    hide Find;
  }

  lemma ChildlessNests(s: State, b: seq<Task>, id: int)
    requires Inv(s) && |b| == |s.tasks| && !exists t :: t in s.tasks && Child(t, id)
    requires forall i :: 0 <= i < |b| ==>
      b[i] == if s.tasks[i].id == id then s.tasks[i].(status := Deleted) else s.tasks[i]
    ensures WellNested(b)
  {
    hide NestedIn, Structured, Derived, Exclusive;
    NestedEach(s.tasks);
    NestedEach(b);
    hide WellNested;
    forall t | t in b && t.status != Deleted
      ensures NestedIn(b, t)
    {
      var i :| 0 <= i < |b| && b[i] == t;
      assert s.tasks[i] == t && t in s.tasks;
      assert !Child(t, id);
      OthersNest(s.tasks, b, id, t);
    }
  }

  lemma ChildForbids(s: State, b: seq<Task>, id: int, t: Task)
    requires Inv(s) && |b| == |s.tasks| && t in s.tasks && Child(t, id)
    requires forall i :: 0 <= i < |b| ==>
      b[i] == if s.tasks[i].id == id then s.tasks[i].(status := Deleted) else s.tasks[i]
    ensures !WellNested(b)
  {
    var i :| 0 <= i < |s.tasks| && s.tasks[i] == t;
    if t.id == id {
      SelfChild(s, t);
    }
    assert b[i] == t && b[i] in b;
    assert !LiveGroup(b, id);
  }

  lemma SelfChild(s: State, t: Task)
    requires Inv(s) && t in s.tasks && t.status != Deleted
    ensures t.parentId != Some(t.id)
  {
    if t.parentId == Some(t.id) {
      var g :| g in s.tasks && g.id == t.id && g.IsGroup();
      FindUnique(s.tasks, g);
      FindUnique(s.tasks, t);
    }
  }

  lemma OthersNest(a: seq<Task>, b: seq<Task>, id: int, t: Task)
    requires |b| == |a| && forall i :: 0 <= i < |b| ==> b[i] == if a[i].id == id then a[i].(status := Deleted) else a[i]
    requires NestedIn(a, t) && t.parentId != Some(id)
    ensures NestedIn(b, t)
  {
    if t.parentId.Some? {
      var g :| g in a && g.id == t.parentId.value && g.IsGroup() && g.Live() && g.parentId.None?;
      var i :| 0 <= i < |a| && a[i] == g;
      assert b[i] == g && b[i] in b;
    }
    forall d | d in t.blockedBy
      ensures !IsGroupId(b, d)
    {
      GroupIdBack(a, b, d);
    }
  }

  lemma GroupIdBack(a: seq<Task>, b: seq<Task>, d: int)
    requires |b| == |a| && forall i :: 0 <= i < |b| ==> b[i] == a[i].(status := b[i].status)
    ensures IsGroupId(b, d) ==> IsGroupId(a, d)
  {
    if IsGroupId(b, d) {
      var g :| g in b && g.id == d && g.IsGroup();
      var i :| 0 <= i < |b| && b[i] == g;
      assert a[i] in a;
    }
  }

  // ---- what a refusal says ----

  lemma {:induction false} DependencyErrorMeans(tasks: seq<Task>, deps: seq<int>, self: Option<int>)
    requires UniqueIds(tasks) && DependencyError(tasks, deps, self).Some?
    ensures match DependencyError(tasks, deps, self).value
      case SelfDependency(d) => d in deps && self == Some(d)
      case DependencyNotFound(d) => d in deps && !Has(tasks, d)
      case DependencyDeleted(d) => d in deps && Has(tasks, d) && !HasLive(tasks, d)
      case _ => false
  {
    var d, rest := deps[0], deps[1..];
    assert d in deps && forall x :: x in rest ==> x in deps;
    LinkableLive(tasks, d, None);
    if Find(tasks, d).Some? {
      var c := PlaceOf(tasks, d);
    }
    if DependencyError(tasks, rest, self).Some? {
      DependencyErrorMeans(tasks, rest, self);
    }
    hide UniqueIds, Find, HasLive;
  }

  /** Each refusal of what an update asks of its task holds of that task. */
  lemma UpdateErrorMeans(t: Task, p: Params)
    requires UpdateError(t, p).Some?
    ensures match UpdateError(t, p).value
      case NothingToChange => NothingAsked(p)
      case GroupStatusDerived =>
        p.status.Some? && p.status != Some(Deleted) && (p.kind == Some(GroupKind) || (p.kind.None? && Group(t)))
      case GroupToTask => Group(t) && p.kind == Some(TaskKind)
      case IllegalTransition(b, w) => t.status == b && p.status == Some(w) && b != w && (b, w) !in MOVES
      case CriteriaBlank => p.acceptanceCriteria.Some? && !Says(p.acceptanceCriteria)
      case CriteriaStable => p.acceptanceCriteria.Some? && !Keeps(t.acceptanceCriteria, p.acceptanceCriteria.value)
      case EvidenceRequired => p.status == Some(Completed) && t.status != Completed && !Says(p.evidence)
      case _ => false
  {
    hide CanMove, Trim, Says, Present;
    PresentSays(p.acceptanceCriteria);
    PresentSays(p.evidence);
    if p.status.Some? {
      MovesListed(t.status, p.status.value);
    }
    assert Mutates(p) <==> !NothingAsked(p);
  }

  /** The dependencies that a call would add. */
  function Adding(p: Params): seq<int> {
    if p.action == Create then p.blockedBy else p.addBlockedBy
  }

  /** Each refusal for grouping holds of some live task of the list. */
  lemma {:induction false} GroupingErrorMeans(tasks: seq<Task>, from: nat) returns (t: Task)
    requires UniqueIds(tasks) && from <= |tasks| && GroupingError(tasks, from).Some?
    ensures t in tasks && t.status != Deleted
    ensures match GroupingError(tasks, from).value
      case GroupNested => Group(t) && t.parentId.Some?
      case ParentNotLiveGroup(id) => t.parentId == Some(id) && !HasLiveGroup(tasks, id)
      case GroupHasDependencies => Group(t) && t.blockedBy != []
      case DependsOnGroup => exists d :: d in t.blockedBy && IsGroupId(tasks, d)
      case _ => false
    decreases |tasks| - from
  {
    t := tasks[from];
    if t.status != Deleted && TaskGroupingError(tasks, t).Some? {
      TaskGroupingMeans(tasks, t);
    } else {
      t := GroupingErrorMeans(tasks, from + 1);
    }
  }

  lemma TaskGroupingMeans(tasks: seq<Task>, t: Task)
    requires UniqueIds(tasks) && TaskGroupingError(tasks, t).Some?
    ensures match TaskGroupingError(tasks, t).value
      case GroupNested => Group(t) && t.parentId.Some?
      case ParentNotLiveGroup(id) => t.parentId == Some(id) && !HasLiveGroup(tasks, id)
      case GroupHasDependencies => Group(t) && t.blockedBy != []
      case DependsOnGroup => exists d :: d in t.blockedBy && IsGroupId(tasks, d)
      case _ => false
  {
    if t.parentId.Some? {
      forall g | g in tasks && g.id == t.parentId.value
        ensures Find(tasks, t.parentId.value) == Some(g)
      {
        FindUnique(tasks, g);
      }
    }
    if DependsOnGroupTask(tasks, t) {
      var i :| 0 <= i < |t.blockedBy| && var dep := Find(tasks, t.blockedBy[i]); dep.Some? && dep.value.IsGroup();
      assert t.blockedBy[i] in t.blockedBy && IsGroupId(tasks, t.blockedBy[i]);
    }
    hide Find, UniqueIds;
  }

  /** What stands against the task of an update, or against the list that an action leaves. */
  ghost predicate RefusedInside(s: State, p: Params, error: Error) {
    || (p.action == Update && exists t :: t in s.tasks && p.id == Some(t.id) && UpdateError(t, p) == Some(error))
    || (ReduceAction(s, p).Next? && GroupingError(ReduceAction(s, p).state.tasks) == Some(error))
  }

  ghost predicate Means(s: State, p: Params, error: Error) {
    match error
    case SubjectRequired => p.action == Create && !Says(p.subject)
    case CriteriaRequired => p.action == Create && p.kind != Some(GroupKind) && !Says(p.acceptanceCriteria)
    case IdRequired => p.action in {Update, Get, Delete} && p.id.None?
    case NotFound(id) => p.action in {Update, Get, Delete} && p.id == Some(id) && !Has(s.tasks, id)
    case AlreadyDeleted(id) => p.action == Delete && p.id == Some(id) && Has(s.tasks, id) && !HasLive(s.tasks, id)
    case DependencyNotFound(d) => p.action in {Create, Update} && d in Adding(p) && !Has(s.tasks, d)
    case DependencyDeleted(d) =>
      p.action in {Create, Update} && d in Adding(p) && Has(s.tasks, d) && !HasLive(s.tasks, d)
    case SelfDependency(d) => p.action == Update && p.id == Some(d) && d in p.addBlockedBy
    case WouldCreateCycle =>
      p.action == Update
      && exists t :: t in s.tasks && p.id == Some(t.id) && !ClosesNothing(s.tasks, t, p.addBlockedBy)
    case _ => RefusedInside(s, p, error)
  }

  lemma CreateMeans(s: State, p: Params)
    requires Inv(s) && p.action == Create && CreateTask(s, p).Rejected?
    ensures Means(s, p, CreateTask(s, p).error)
  {
    hide Inv, DependencyError, Has, HasLive, Says, Present, Trim;
    UniqueListed(s);
    PresentSays(p.subject);
    PresentSays(p.acceptanceCriteria);
    if DependencyError(s.tasks, p.blockedBy, None).Some? {
      DependencyMeans(s, p, None);
    }
  }

  lemma FoundOrNot(s: State, id: int)
    requires Inv(s)
    ensures Find(s.tasks, id).Some? <==> Has(s.tasks, id)
    ensures Find(s.tasks, id).Some? ==> (Find(s.tasks, id).value.status != Deleted <==> HasLive(s.tasks, id))
  {
    UniqueListed(s);
    LinkableLive(s.tasks, id, None);
    if Find(s.tasks, id).Some? {
      var c := PlaceOf(s.tasks, id);
    }
    hide Inv, UniqueIds;
  }

  lemma DependencyMeans(s: State, p: Params, self: Option<int>)
    requires UniqueIds(s.tasks) && DependencyError(s.tasks, Adding(p), self).Some? && p.action in {Create, Update}
    requires self.Some? ==> p.action == Update && p.id == self
    ensures Means(s, p, DependencyError(s.tasks, Adding(p), self).value)
  {
    DependencyErrorMeans(s.tasks, Adding(p), self);
    hide DependencyError, UniqueIds, Has, HasLive;
  }

  lemma TaskMeans(s: State, p: Params, t: Task)
    requires p.action == Update && t in s.tasks && p.id == Some(t.id) && UpdateError(t, p).Some?
    ensures Means(s, p, UpdateError(t, p).value)
  {
    UpdateErrorMeans(t, p);
    hide UpdateError;
  }

  lemma CycleMeans(s: State, p: Params, t: Task)
    requires p.action == Update && t in s.tasks && p.id == Some(t.id) && !ClosesNothing(s.tasks, t, p.addBlockedBy)
    ensures Means(s, p, WouldCreateCycle)
  {
    hide ClosesNothing;
  }

  predicate GoneAlready(s: State, id: int) {
    Find(s.tasks, id).Some? && Find(s.tasks, id).value.status == Deleted
  }

  lemma NotFoundMeans(s: State, p: Params)
    requires Inv(s) && p.action in {Update, Get, Delete}
    ensures p.id.None? ==> Means(s, p, IdRequired)
    ensures p.id.Some? && Find(s.tasks, p.id.value).None? ==> Means(s, p, NotFound(p.id.value))
    ensures p.action == Delete && p.id.Some? && GoneAlready(s, p.id.value) ==> Means(s, p, AlreadyDeleted(p.id.value))
  {
    hide Inv, Find, Has, HasLive;
    if p.id.Some? {
      FoundOrNot(s, p.id.value);
    }
  }

  lemma UpdateMeans(s: State, p: Params)
    requires Inv(s) && p.action == Update && ReduceAction(s, p).Rejected?
    ensures Means(s, p, ReduceAction(s, p).error)
  {
    hide Inv, Means, UpdateError, DependencyError, SomeReaches, AddedDependencies, ClosesNothing, Dependencies,
      UpdatedTask, UniqueIds;
    UniqueListed(s);
    NotFoundMeans(s, p);
    if p.id.Some? && Find(s.tasks, p.id.value).Some? {
      var t := Find(s.tasks, p.id.value).value;
      CycleAdded(s, t, p);
      if UpdateError(t, p).Some? {
        TaskMeans(s, p, t);
      } else if DependencyError(s.tasks, p.addBlockedBy, Some(t.id)).Some? {
        DependencyMeans(s, p, Some(t.id));
      } else {
        assert CheckUpdate(s, p) == Allowed(t);
        assert SomeReaches(Dependencies(s.tasks), AddedDependencies(t, p), t.id);
        CycleMeans(s, p, t);
      }
    }
  }

  /** A refusal names what is the matter: what it says is so, of the call and the list. */
  lemma RefusalMeans(s: State, p: Params)
    requires Inv(s) && Reduce(s, p).error.Some?
    ensures Means(s, p, Reduce(s, p).error.value)
  {
    hide Inv, Means, CreateTask, CheckUpdate, SomeReaches, CommitUpdate, GroupingError;
    if ReduceAction(s, p).Rejected? {
      match p.action {
        case Create => CreateMeans(s, p);
        case Update => UpdateMeans(s, p);
        case _ => OtherMeans(s, p);
      }
    } else {
      GroupingRefusal(s, p);
    }
  }

  lemma OtherMeans(s: State, p: Params)
    requires Inv(s) && p.action in {Delete, Get} && ReduceAction(s, p).Rejected?
    ensures Means(s, p, ReduceAction(s, p).error)
  {
    hide Inv, Means, Find;
    NotFoundMeans(s, p);
  }

  lemma GroupingRefusal(s: State, p: Params)
    requires Inv(s) && ReduceAction(s, p).Next? && Reduce(s, p).error.Some?
    ensures Means(s, p, Reduce(s, p).error.value)
  {
    var tasks := ReduceAction(s, p).state.tasks;
    ActionKeeps(s, p);
    StructuredUnique(ReduceAction(s, p).state);
    assert GroupingError(tasks) == Reduce(s, p).error;
    var t := GroupingErrorMeans(tasks, 0);
    hide Inv, ReduceAction, Structured;
  }

  // ---- every move can be made ----

  /** Nothing but a status for one task, and what was done for it. */
  function Move(id: int, status: Status): Params {
    Params(Update, None, None, Keep, None, None, Some("x"), None, Some(status), [], [], [], None, None, Some(id))
  }

  lemma SomethingSaid()
    ensures Says(Some("x"))
  {
    assert !IsSpace("x"[0]);
  }

  lemma MoveNests(tasks: seq<Task>, t: Task, u: Task)
    requires WellNested(tasks) && t in tasks && UniqueIds(tasks) && t.status != Deleted && !Group(t)
    requires u == t.(status := u.status, evidence := u.evidence, metadata := u.metadata, blockedBy := u.blockedBy)
    requires forall d :: d in u.blockedBy <==> d in t.blockedBy
    ensures WellNested(With(tasks, u))
  {
    var after := With(tasks, u);
    forall g: int
      ensures LiveGroup(after, g) == LiveGroup(tasks, g) && IsGroupId(after, g) == IsGroupId(tasks, g)
    {
      SameGroups(tasks, t, u, g);
    }
    hide LiveGroup, IsGroupId;
    forall x | x in after && x.Live()
      ensures x.parentId.Some? ==> !x.IsGroup() && LiveGroup(after, x.parentId.value)
      ensures x.IsGroup() ==> x.blockedBy == []
      ensures forall d :: d in x.blockedBy ==> !IsGroupId(after, d)
    {
      var i :| 0 <= i < |after| && after[i] == x;
      assert tasks[i] in tasks && (x == tasks[i] || (x == u && tasks[i].id == t.id));
      if x == u && x != tasks[i] {
        SameTask(tasks, t, tasks[i]);
      }
    }
  }

  lemma SameTask(tasks: seq<Task>, a: Task, b: Task)
    requires UniqueIds(tasks) && a in tasks && b in tasks && a.id == b.id
    ensures a == b
  {
  }

  lemma SameGroups(tasks: seq<Task>, t: Task, u: Task, g: int)
    requires t in tasks && UniqueIds(tasks) && !Group(t) && u.id == t.id && u.kind == t.kind
    ensures LiveGroup(With(tasks, u), g) == LiveGroup(tasks, g) && IsGroupId(With(tasks, u), g) == IsGroupId(tasks, g)
  {
  }

  lemma MoveGranted(s: State, t: Task, status: Status)
    requires Inv(s) && t in s.tasks && !Group(t) && (t.status, status) in MOVES
    ensures Grants(s, Move(t.id, status), t, UpdatedTask(t, Move(t.id, status)))
  {
    hide WellNested, Structured, Exclusive, Derived, UpdatedTask, With, Becomes, StatusOf, Trim;
    var p := Move(t.id, status);
    SomethingSaid();
    UpdatedAsAsked(t, p);
    UniqueListed(s);
    MoveNests(s.tasks, t, UpdatedTask(t, p));
  }

  /** Every move of the table can be made: the call is accepted, and afterwards the task has that status. */
  lemma EveryMoveReached(s: State, t: Task, status: Status) returns (c: nat)
    requires Inv(s) && t in s.tasks && !Group(t) && (t.status, status) in MOVES
    ensures Reduce(s, Move(t.id, status)).error.None? && c < |s.tasks| == |Reduce(s, Move(t.id, status)).state.tasks|
    ensures s.tasks[c] == t && Reduce(s, Move(t.id, status)).state.tasks[c].id == t.id
    ensures Reduce(s, Move(t.id, status)).state.tasks[c].status == status
  {
    hide Reduce, Becomes, Inv, Grants, UpdatedTask, Yields, UpdatesTo;
    var p := Move(t.id, status);
    MoveGranted(s, t, status);
    UpdateAccepted(s, p);
    c := UpdateEffect(s, p);
    UniqueTasks(s);
    SameTask(s.tasks, t, s.tasks[c]);
    var r := Reduce(s, p).state.tasks;
    var v :| UpdatesTo(s.tasks[c], p, v) && Becomes(r, v, r[c]);
    MovedTask(t, status, v);
    BecomesItself(r, v, r[c]);
  }

  lemma UniqueTasks(s: State)
    requires Inv(s)
    ensures UniqueIds(s.tasks)
  {
  }

  lemma MovedTask(t: Task, status: Status, v: Task)
    requires UpdatesTo(t, Move(t.id, status), v) && !Group(t)
    ensures v.id == t.id && v.status == status && !Group(v)
  {
  }

  lemma BecomesItself(tasks: seq<Task>, t: Task, after: Task)
    requires Becomes(tasks, t, after) && !Group(t)
    ensures after == t
  {
  }
}
