/** What creating, updating and deleting do to the task they are about, and when they are refused. */
module TodoEdits {
  import opened Prelude
  import opened TodoGraph
  import opened TodoState
  import opened TodoInvariant

  // ---- dependencies that may be added ----

  ghost predicate Linkable(tasks: seq<Task>, d: int, self: Option<int>) {
    Some(d) != self && Find(tasks, d).Some? && Find(tasks, d).value.Live()
  }

  lemma {:induction false} DependencyErrorExact(tasks: seq<Task>, deps: seq<int>, self: Option<int>)
    ensures DependencyError(tasks, deps, self).None? <==> forall d :: d in deps ==> Linkable(tasks, d, self)
  {
    if deps != [] {
      var first, rest := deps[0], deps[1..];
      assert first in deps && forall d :: d in deps <==> d == first || d in rest;
      DependencyErrorExact(tasks, rest, self);
      assert DependencyError(tasks, deps, self).None? <==>
        Linkable(tasks, first, self) && DependencyError(tasks, rest, self).None?;
      hide Linkable, DependencyError;
    }
  }

  // ---- creating ----

  /**
    A task is created exactly when it has a subject, a completion check unless it is a group, and live
    dependencies.
   */
  lemma CreatedExactly(s: State, p: Params)
    ensures CreateTask(s, p).Next? <==>
      && Present(p.subject) && (p.kind == Some(GroupKind) || Present(p.acceptanceCriteria))
      && forall d :: d in p.blockedBy ==> Linkable(s.tasks, d, None)
  {
    DependencyErrorExact(s.tasks, p.blockedBy, None);
    hide Linkable, DependencyError;
  }

  /**
    The new task is found under an id that was not in use, pending, without evidence, and with exactly
    the dependencies asked for.
   */
  lemma CreatedReadsBack(s: State, p: Params)
    requires Structured(s) && CreateTask(s, p).Next?
    ensures var n := CreateTask(s, p).state;
      && Find(s.tasks, s.nextId).None? && n.nextId == s.nextId + 1
      && |n.tasks| == |s.tasks| + 1 && n.tasks[..|s.tasks|] == s.tasks
      && var t := n.tasks[|s.tasks|];
        && Find(n.tasks, s.nextId) == Some(t)
        && t.status == Pending && Some(t.subject) == p.subject && t.evidence.None?
        && t.IsGroup() == (p.kind == Some(GroupKind)) && (t.IsGroup() || Present(t.acceptanceCriteria))
        && Distinct(t.blockedBy) && (forall d :: d in t.blockedBy <==> d in p.blockedBy)
  {
    hide KnownDependencies, NoCycle, DependencyError;
    var n := CreateTask(s, p).state;
    if p.acceptanceCriteria.Some? {
      TrimAgain(p.acceptanceCriteria.value);
    }
    hide Trim;
    FindLast(s.tasks, n.tasks[|s.tasks|]);
  }

  lemma {:induction false} FindLast(tasks: seq<Task>, t: Task)
    requires forall i :: 0 <= i < |tasks| ==> tasks[i].id != t.id
    ensures Find(tasks, t.id).None? && Find(tasks + [t], t.id) == Some(t)
  {
    if tasks != [] {
      FindLast(tasks[1..], t);
      assert (tasks + [t])[1..] == tasks[1..] + [t];
    }
  }

  // ---- updating ----

  /**
    An update goes through exactly when its task exists, nothing about the task itself stands against
    it, what it adds are other live tasks, and the dependencies it leaves have no cycle.
   */
  lemma UpdatedExactly(s: State, p: Params)
    requires Inv(s) && p.action == Update
    ensures ReduceAction(s, p).Next? <==>
      && p.id.Some? && Find(s.tasks, p.id.value).Some?
      && var t := Find(s.tasks, p.id.value).value;
        && UpdateError(t, p).None? && (forall d :: d in p.addBlockedBy ==> Linkable(s.tasks, d, Some(t.id)))
        && NoCycle(CommitUpdate(s, t, p).state.tasks)
  {
    if p.id.Some? && Find(s.tasks, p.id.value).Some? {
      var t := Find(s.tasks, p.id.value).value;
      DependencyErrorExact(s.tasks, p.addBlockedBy, Some(t.id));
      if CheckUpdate(s, p) == Allowed(t) {
        CycleCheckExact(s, p, t);
      }
      hide Linkable, DependencyError, UpdateError, NoCycle, CommitUpdate, AddedDependencies;
    }
  }

  /** Dependencies after an update, as a set: the old ones but for those removed, and those added, even if both. */
  lemma UpdatedLinks(current: Task, p: Params)
    ensures forall d :: d in UpdatedTask(current, p).blockedBy <==>
      (d in current.blockedBy && d !in p.removeBlockedBy) || d in p.addBlockedBy
  {
  }

  /** What an update can be about. */
  datatype Field =
    | SubjectField | KindField | ParentField | DescriptionField | CriteriaField | EvidenceField
    | FormField | StatusField | LinksField | OwnerField | MetadataField

  predicate Touches(p: Params, f: Field) {
    match f
    case SubjectField => p.subject.Some?
    case KindField => p.kind.Some?
    case ParentField => !p.parentId.Keep?
    case DescriptionField => p.description.Some?
    case CriteriaField => p.acceptanceCriteria.Some?
    case EvidenceField => p.evidence.Some?
    case FormField => p.activeForm.Some?
    case StatusField => p.status.Some?
    case LinksField => p.addBlockedBy != [] || p.removeBlockedBy != []
    case OwnerField => p.owner.Some?
    case MetadataField => p.metadata.Some?
  }

  lemma LinksUntouched(current: Task, p: Params)
    requires !Touches(p, LinksField)
    ensures UpdatedTask(current, p).blockedBy == current.blockedBy
  {
    FilterEvery((b: int) => b !in p.removeBlockedBy, current.blockedBy);
  }

  lemma LinksAlike(a: Task, b: Task, p: Params)
    requires a.blockedBy == b.blockedBy
    ensures UpdatedTask(a, p).blockedBy == UpdatedTask(b, p).blockedBy
  {
    assert KeptDependencies(a, p) == KeptDependencies(b, p);
  }

  /** Updates of one task that are about different things come to the same in either order. */
  lemma UpdatesCommute(current: Task, p: Params, q: Params)
    requires forall f :: !(Touches(p, f) && Touches(q, f))
    ensures UpdatedTask(UpdatedTask(current, p), q) == UpdatedTask(UpdatedTask(current, q), p)
  {
    var a, b := UpdatedTask(current, p), UpdatedTask(current, q);
    if !Touches(p, LinksField) {
      LinksUntouched(current, p);
      LinksUntouched(b, p);
      LinksAlike(a, current, q);
    } else {
      assert !Touches(q, LinksField);
      LinksUntouched(current, q);
      LinksUntouched(a, q);
      LinksAlike(b, current, p);
    }
    assert forall f :: Touches(p, f) ==> !Touches(q, f);
    FieldsApart(p, q);
    hide KeptDependencies, AddedDependencies, MergeMetadata, Trim;
  }

  lemma FieldsApart(p: Params, q: Params)
    requires forall f :: !(Touches(p, f) && Touches(q, f))
    ensures (p.subject.None? || q.subject.None?) && (p.kind.None? || q.kind.None?)
    ensures (p.parentId.Keep? || q.parentId.Keep?)
    ensures (p.description.None? || q.description.None?) && (p.acceptanceCriteria.None? || q.acceptanceCriteria.None?)
    ensures (p.evidence.None? || q.evidence.None?) && (p.activeForm.None? || q.activeForm.None?)
    ensures (p.status.None? || q.status.None?) && (p.owner.None? || q.owner.None?)
    ensures (p.metadata.None? || q.metadata.None?)
  {
    assert !(Touches(p, SubjectField) && Touches(q, SubjectField)) && !(Touches(p, KindField) && Touches(q, KindField));
    assert !(Touches(p, ParentField) && Touches(q, ParentField));
    assert !(Touches(p, DescriptionField) && Touches(q, DescriptionField));
    assert !(Touches(p, CriteriaField) && Touches(q, CriteriaField));
    assert !(Touches(p, EvidenceField) && Touches(q, EvidenceField));
    assert !(Touches(p, FormField) && Touches(q, FormField)) && !(Touches(p, StatusField) && Touches(q, StatusField));
    assert !(Touches(p, OwnerField) && Touches(q, OwnerField));
    assert !(Touches(p, MetadataField) && Touches(q, MetadataField));
  }

  // ---- metadata ----

  /** Two changes of metadata come to one, in which the later value of a key counts. */
  lemma ChangesCompose(current: map<string, Json>, first: map<string, Json>, second: map<string, Json>)
    ensures MergeMetadata(MergeMetadata(current, first), second) == MergeMetadata(current, first + second)
  {
  }

  /** What takes a change back: the old values, and a null for each key that was not there. */
  function UndoOf(current: map<string, Json>, change: map<string, Json>): map<string, Json> {
    map k | k in change :: if k in current then current[k] else Null
  }

  /** A change of metadata can be taken back by another exactly when it is about no key that holds a null. */
  lemma ChangeUndone(current: map<string, Json>, change: map<string, Json>)
    ensures (exists undo :: MergeMetadata(MergeMetadata(current, change), undo) == current) <==>
      forall k :: k in change && k in current ==> current[k] != Null
  {
    if forall k :: k in change && k in current ==> current[k] != Null {
      assert MergeMetadata(MergeMetadata(current, change), UndoOf(current, change)) == current;
    }
    forall undo, k | MergeMetadata(MergeMetadata(current, change), undo) == current && k in change && k in current
      ensures current[k] != Null
    {
      assert MergeMetadata(MergeMetadata(current, change), undo)[k] == current[k];
    }
  }

  lemma {:induction false} FilterEvery<T(!new)>(q: T -> bool, s: seq<T>)
    requires forall x :: x in s ==> q(x)
    ensures Filter(q, s) == s
  {
    if s != [] {
      FilterEvery(q, s[1..]);
      assert s == [s[0]] + s[1..];
    }
  }

  lemma MergedTwice(current: map<string, Json>, change: map<string, Json>)
    ensures MergeMetadata(MergeMetadata(current, change), change) == MergeMetadata(current, change)
  {
  }

  /** Making the same update again changes nothing, but for the order of dependencies that it both removes and adds. */
  lemma UpdateTwice(current: Task, p: Params)
    ensures var once := UpdatedTask(current, p);
      var twice := UpdatedTask(once, p);
      && twice.(blockedBy := []) == once.(blockedBy := [])
      && (forall d :: d in twice.blockedBy <==> d in once.blockedBy)
      && ((forall d :: d in p.addBlockedBy ==> d !in p.removeBlockedBy) ==> twice == once)
  {
    var once := UpdatedTask(current, p);
    if p.acceptanceCriteria.Some? {
      TrimAgain(p.acceptanceCriteria.value);
    }
    if p.evidence.Some? {
      TrimAgain(p.evidence.value);
    }
    if p.metadata.Some? {
      MergedTwice(current.metadata, p.metadata.value);
    }
    UpdatedLinks(current, p);
    UpdatedLinks(once, p);
    hide Trim, KeptDependencies, AddedDependencies, MergeMetadata;
    if forall d :: d in p.addBlockedBy ==> d !in p.removeBlockedBy {
      LinksTwice(current, p);
    }
  }

  lemma LinksTwice(current: Task, p: Params)
    requires forall d :: d in p.addBlockedBy ==> d !in p.removeBlockedBy
    ensures UpdatedTask(UpdatedTask(current, p), p).blockedBy == UpdatedTask(current, p).blockedBy
  {
    var once := UpdatedTask(current, p);
    UpdatedLinks(current, p);
    forall d | d in once.blockedBy
      ensures d !in p.removeBlockedBy
    {
    }
    FilterEvery((b: int) => b !in p.removeBlockedBy, once.blockedBy);
    assert KeptDependencies(once, p) == once.blockedBy;
    FilterNone((b: int) => b !in once.blockedBy, p.addBlockedBy);
  }

  /** With an id that is both removed and added, the order does change. */
  lemma LinksReordered(current: Task, p: Params)
    requires current.blockedBy == [] && p.addBlockedBy == [1, 2] && p.removeBlockedBy == [1]
    ensures UpdatedTask(current, p).blockedBy == [1, 2]
    ensures UpdatedTask(UpdatedTask(current, p), p).blockedBy == [2, 1]
  {
    var once := UpdatedTask(current, p);
    assert [1, 2][1..] == [2] && [2][1..] == [];
    assert KeptDependencies(current, p) == [];
    assert AddedDependencies(current, p) == [1, 2];
    assert once.blockedBy == [1, 2];
    assert KeptDependencies(once, p) == [2];
    assert AddedDependencies(once, p) == [1];
  }

  // ---- who keeps working ----

  /**
    What an update does to the other active tasks: one is returned to pending exactly when the updated
    task is active and the two do not have owners that differ; the others go on.
   */
  lemma OthersKeepWorking(s: State, p: Params, i: nat)
    requires Inv(s) && p.action == Update && Reduce(s, p).error.None? && i < |s.tasks|
    requires s.tasks[i].Active() && p.id.Some? && p.id.value != s.tasks[i].id
    ensures var r := Reduce(s, p).state;
      var u := Find(CommitUpdate(s, Find(s.tasks, p.id.value).value, p).state.tasks, p.id.value);
      && u.Some? && i < |r.tasks|
      && r.tasks[i] == if u.value.Active() && !DistinctOwners(u.value, s.tasks[i]) then s.tasks[i].(status := Pending)
        else s.tasks[i]
  {
    hide Find, Inv, Reduce, ReplaceTask, UpdatedTask, Exclude, DeriveGroups, DistinctOwners;
    UpdateResult(s, p);
    var t := Find(s.tasks, p.id.value).value;
    var n := CommitUpdate(s, t, p).state;
    CommittedOther(s, t, p, i);
    ExcludeAt(n, p, i);
    DerivedAt(Exclude(n, p), i);
  }

  /** What an update that goes through leads to, step by step. */
  lemma UpdateResult(s: State, p: Params)
    requires Inv(s) && p.action == Update && Reduce(s, p).error.None?
    ensures p.id.Some? && Find(s.tasks, p.id.value).Some?
    ensures var t := Find(s.tasks, p.id.value).value;
      var n := CommitUpdate(s, t, p).state;
      Find(n.tasks, p.id.value) == Some(UpdatedTask(t, p)) && Reduce(s, p).state == DeriveGroups(Exclude(n, p))
  {
    hide WellNested, Derived, Exclusive, GroupingError, Exclude, DeriveGroups, SomeReaches, UpdateError,
      DependencyError, UpdatedTask;
    if CheckUpdate(s, p).Allowed? {
      UpdateIsListed(s, p, CheckUpdate(s, p).current);
    }
  }

  lemma CommittedOther(s: State, t: Task, p: Params, i: nat)
    requires i < |s.tasks| && s.tasks[i].id != t.id
    ensures var n := CommitUpdate(s, t, p).state;
      |n.tasks| == |s.tasks| && n.tasks[i] == s.tasks[i]
  {
  }

  lemma ExcludeAt(n: State, p: Params, i: nat)
    requires p.action == Update && p.id.Some? && Find(n.tasks, p.id.value).Some? && i < |n.tasks|
    ensures var u := Find(n.tasks, p.id.value).value;
      && |Exclude(n, p).tasks| == |n.tasks|
      && Exclude(n, p).tasks[i] == if u.Active() then YieldTask(u, n.tasks[i]) else n.tasks[i]
  {
    hide Find, YieldTask;
  }

  // ---- deleting ----

  /** No call on a list takes a task out of it. */
  ghost predicate KeepsTasks(events: seq<Event>) {
    forall i :: 0 <= i < |events| && events[i].Call? ==> events[i].params.action != Clear
  }

  /**
    Once deleted, a task stays deleted, at its place and under its id, whatever calls and pauses follow
    that do not clear the list.
   */
  lemma {:induction false} DeletedForever(before: seq<Event>, after: seq<Event>, i: nat)
    requires KeepsTasks(after) && i < |Run(before).tasks| && Run(before).tasks[i].status == Deleted
    ensures var tasks := Run(before + after).tasks;
      i < |tasks| && tasks[i].id == Run(before).tasks[i].id && tasks[i].status == Deleted
  {
    hide Run, Inv, Reduce, PauseActive;
    if after == [] {
      assert before + after == before;
    } else {
      var n := |after| - 1;
      var all := before + after;
      assert all[..|all| - 1] == before + after[..n] && all[|all| - 1] == after[n];
      DeletedForever(before, after[..n], i);
      ReachableInv(before + after[..n]);
      RunNext(all);
      match after[n] {
        case Call(p) => DeletedStays(Run(before + after[..n]), p, i);
        case Pause => DeletedPauses(Run(before + after[..n]), i);
      }
    }
  }

  lemma RunNext(events: seq<Event>)
    requires events != []
    ensures Run(events) ==
      match events[|events| - 1]
      case Call(p) => Reduce(Run(events[..|events| - 1]), p).state
      case Pause => PauseActive(Run(events[..|events| - 1]))
  {
    hide Reduce, PauseActive;
  }

  lemma DeletedStays(s: State, p: Params, i: nat)
    requires Inv(s) && p.action != Clear && i < |s.tasks| && s.tasks[i].status == Deleted
    ensures var tasks := Reduce(s, p).state.tasks;
      i < |tasks| && tasks[i].id == s.tasks[i].id && tasks[i].status == Deleted
  {
    CallFollows(s, p, i);
    hide Inv, Reduce;
  }

  lemma DeletedPauses(s: State, i: nat)
    requires i < |s.tasks| && s.tasks[i].status == Deleted
    ensures var tasks := PauseActive(s).tasks;
      i < |tasks| && tasks[i].id == s.tasks[i].id && tasks[i].status == Deleted
  {
    hide GroupProgress;
  }

  /** A deleted task stays as a tombstone with all else it had, and cannot be deleted again. */
  lemma DeletedForGood(s: State, p: Params, t: Task, q: Params)
    requires Inv(s) && p.action == Delete && p.id == Some(t.id) && t in s.tasks && t.Live()
    ensures DeleteTask(s, p).Next?
    ensures var n := DeleteTask(s, p).state;
      && Find(n.tasks, t.id) == Some(t.(status := Deleted))
      && (q.id == Some(t.id) ==> DeleteTask(n, q) == Rejected(AlreadyDeleted(t.id)))
  {
    hide NoCycle, KnownDependencies, WellNested, Derived, Exclusive;
    FindUnique(s.tasks, t);
    DeleteKeeps(s, p);
    var n := DeleteTask(s, p).state;
    var i :| 0 <= i < |s.tasks| && s.tasks[i] == t;
    assert n.tasks[i] == t.(status := Deleted) && n.tasks[i] in n.tasks;
    hide Find;
    FindUnique(n.tasks, n.tasks[i]);
  }
}
