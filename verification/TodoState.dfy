/** The todo list and its reducer. Message texts are reduced to the error they report. */
module TodoState {
  import opened Prelude
  import opened TodoGraph

  datatype Status = Pending | InProgress | Completed | Deleted
  datatype Kind = TaskKind | GroupKind
  datatype Json = Null | Value(text: string)

  /** A missing `blockedBy` and an empty one are the same; so are missing and empty metadata. */
  datatype Task = Task(
    id: int,
    subject: string,
    kind: Option<Kind>,
    parentId: Option<int>,
    description: Option<string>,
    acceptanceCriteria: Option<string>,
    evidence: Option<string>,
    activeForm: Option<string>,
    status: Status,
    blockedBy: seq<int>,
    owner: Option<string>,
    metadata: map<string, Json>)
  {
    predicate IsGroup() { kind == Some(GroupKind) }
    predicate Live() { status != Deleted }
    /** An ordinary task that claims to be worked on. */
    predicate Active() { !IsGroup() && status == InProgress }
  }

  datatype State = State(tasks: seq<Task>, nextId: int)

  const EMPTY := State([], 1)

  datatype Action = Create | Update | List | Get | Delete | Clear
  datatype ParentArg = Keep | Detach | Under(id: int)

  datatype Params = Params(
    action: Action,
    subject: Option<string>,
    kind: Option<Kind>,
    parentId: ParentArg,
    description: Option<string>,
    acceptanceCriteria: Option<string>,
    evidence: Option<string>,
    activeForm: Option<string>,
    status: Option<Status>,
    blockedBy: seq<int>,
    addBlockedBy: seq<int>,
    removeBlockedBy: seq<int>,
    owner: Option<string>,
    metadata: Option<map<string, Json>>,
    id: Option<int>)

  datatype Error =
    | SubjectRequired | CriteriaRequired | IdRequired | NotFound(id: int)
    | DependencyNotFound(id: int) | DependencyDeleted(id: int) | SelfDependency(id: int) | WouldCreateCycle
    | NothingToChange | GroupStatusDerived | GroupToTask | IllegalTransition(before: Status, wanted: Status)
    | CriteriaBlank | CriteriaStable | EvidenceRequired | AlreadyDeleted(id: int)
    | GroupNested | ParentNotLiveGroup(id: int) | GroupHasDependencies | DependsOnGroup

  predicate CanMove(before: Status, wanted: Status) {
    match before
    case Pending => wanted in {InProgress, Completed, Deleted}
    case InProgress => wanted in {Pending, Completed, Deleted}
    case Completed => wanted == Deleted
    case Deleted => false
  }

  // ---- looking things up ----

  function Find(tasks: seq<Task>, id: int): (r: Option<Task>)
    ensures r.Some? ==> r.value in tasks && r.value.id == id
    ensures r.None? ==> forall t :: t in tasks ==> t.id != id
  {
    if tasks == [] then None
    else if tasks[0].id == id then Some(tasks[0])
    else
      assert tasks == [tasks[0]] + tasks[1..];
      Find(tasks[1..], id)
  }

  /** Later tasks win, as when a JavaScript Map is filled in order. */
  function Dependencies(tasks: seq<Task>): Graph {
    if tasks == [] then map[]
    else
      var last := tasks[|tasks| - 1];
      Dependencies(tasks[..|tasks| - 1])[last.id := last.blockedBy]
  }

  // ---- groups ----

  function Children(tasks: seq<Task>, id: int): seq<Task> {
    Filter((t: Task) => t.parentId == Some(id) && t.Live(), tasks)
  }

  datatype Progress = Progress(done: nat, total: nat, status: Status)

  function GroupProgress(tasks: seq<Task>, id: int): Progress {
    var children := Children(tasks, id);
    var done := |Filter((t: Task) => t.status == Completed, children)|;
    var status :=
      if children != [] && done == |children| then Completed
      else if done != 0 || exists t :: t in children && t.status == InProgress then InProgress
      else Pending;
    Progress(done, |children|, status)
  }

  /** The same tasks with one function applied to each. */
  function MapTasks(f: Task -> Task, tasks: seq<Task>): (r: seq<Task>)
    ensures |r| == |tasks|
    ensures forall i :: 0 <= i < |tasks| ==> r[i] == f(tasks[i])
  {
    seq(|tasks|, i requires 0 <= i < |tasks| => f(tasks[i]))
  }

  function DeriveTask(tasks: seq<Task>, t: Task): Task {
    if t.IsGroup() && t.Live() then t.(status := GroupProgress(tasks, t.id).status) else t
  }

  function DeriveGroups(s: State): State {
    s.(tasks := MapTasks((t: Task) => DeriveTask(s.tasks, t), s.tasks))
  }

  function PauseTask(t: Task): Task {
    if t.Active() then t.(status := Pending) else t
  }

  /** Idle and restored sessions must not claim that an agent is still working. */
  function PauseActive(s: State): State {
    DeriveGroups(s.(tasks := MapTasks(PauseTask, s.tasks)))
  }

  predicate DependsOnGroupTask(tasks: seq<Task>, t: Task) {
    exists i :: 0 <= i < |t.blockedBy| && var dep := Find(tasks, t.blockedBy[i]); dep.Some? && dep.value.IsGroup()
  }

  function TaskGroupingError(tasks: seq<Task>, t: Task): Option<Error> {
    if t.IsGroup() && t.parentId.Some? then Some(GroupNested)
    else
      var parent := if t.parentId.Some? then Find(tasks, t.parentId.value) else None;
      if t.parentId.Some? && (parent.None? || !parent.value.IsGroup() || !parent.value.Live()) then
        Some(ParentNotLiveGroup(t.parentId.value))
      else if t.IsGroup() && t.blockedBy != [] then Some(GroupHasDependencies)
      else if DependsOnGroupTask(tasks, t) then Some(DependsOnGroup)
      else None
  }

  /** The first live task that breaks the nesting rules, if any. */
  function GroupingError(tasks: seq<Task>, from: nat := 0): (r: Option<Error>)
    requires from <= |tasks|
    ensures r.None? <==> forall i :: from <= i < |tasks| && tasks[i].Live() ==> TaskGroupingError(tasks, tasks[i]).None?
    decreases |tasks| - from
  {
    if from == |tasks| then None
    else if tasks[from].Live() && TaskGroupingError(tasks, tasks[from]).Some? then TaskGroupingError(tasks, tasks[from])
    else GroupingError(tasks, from + 1)
  }

  // ---- actions ----

  /** What an action leads to before grouping, exclusivity and derived status are applied. */
  datatype Step = Rejected(error: Error) | Unchanged | Next(state: State)

  /** The first dependency that cannot be added, if any. */
  function DependencyError(tasks: seq<Task>, deps: seq<int>, self: Option<int>): (r: Option<Error>)
    ensures r.None? ==> forall d :: d in deps ==> Find(tasks, d).Some? && Some(d) != self
  {
    if deps == [] then None
    else
      assert deps == [deps[0]] + deps[1..];
      var dep := Find(tasks, deps[0]);
      if Some(deps[0]) == self then Some(SelfDependency(deps[0]))
      else if dep.None? then Some(DependencyNotFound(deps[0]))
      else if !dep.value.Live() then Some(DependencyDeleted(deps[0]))
      else DependencyError(tasks, deps[1..], self)
  }

  /** The elements in order of first occurrence: `[...new Set(s)]`. */
  function Dedup(s: seq<int>): (r: seq<int>)
    ensures Distinct(r)
    ensures forall x :: x in r <==> x in s
  {
    if s == [] then []
    else
      var init, last := Dedup(s[..|s| - 1]), s[|s| - 1];
      assert s == s[..|s| - 1] + [last];
      if last in init then init else init + [last]
  }

  function NonEmpty(text: Option<string>): Option<string> {
    if text == Some("") then None else text
  }

  function CreateTask(s: State, p: Params): Step {
    if !Present(p.subject) then Rejected(SubjectRequired)
    else if p.kind != Some(GroupKind) && !Present(p.acceptanceCriteria) then Rejected(CriteriaRequired)
    else
      var error := DependencyError(s.tasks, p.blockedBy, None);
      if error.Some? then Rejected(error.value)
      else
        var task := Task(
          s.nextId, p.subject.value,
          if p.kind == Some(GroupKind) then Some(GroupKind) else None,
          if p.parentId.Under? then Some(p.parentId.id) else None,
          NonEmpty(p.description),
          if Present(p.acceptanceCriteria) then Some(Trim(p.acceptanceCriteria.value)) else None,
          None, NonEmpty(p.activeForm), Pending, Dedup(p.blockedBy), NonEmpty(p.owner),
          if p.metadata.Some? then p.metadata.value else map[]);
        Next(State(s.tasks + [task], s.nextId + 1))
  }

  predicate Mutates(p: Params) {
    p.kind.Some? || !p.parentId.Keep? || p.subject.Some? || p.description.Some? || p.acceptanceCriteria.Some? ||
    p.evidence.Some? || p.activeForm.Some? || p.status.Some? || p.owner.Some? || p.metadata.Some? ||
    p.addBlockedBy != [] || p.removeBlockedBy != []
  }

  /** Everything an update is refused for before its dependencies are looked at. */
  function UpdateError(current: Task, p: Params): Option<Error> {
    var group := if p.kind.Some? then p.kind.value == GroupKind else current.IsGroup();
    if !Mutates(p) then Some(NothingToChange)
    else if group && p.status.Some? && p.status.value != Deleted then Some(GroupStatusDerived)
    else if current.IsGroup() && p.kind == Some(TaskKind) then Some(GroupToTask)
    else if p.status.Some? && p.status.value != current.status && !CanMove(current.status, p.status.value) then
      Some(IllegalTransition(current.status, p.status.value))
    else if p.acceptanceCriteria.Some? && !Present(p.acceptanceCriteria) then Some(CriteriaBlank)
    else if p.acceptanceCriteria.Some? && NonEmpty(current.acceptanceCriteria).Some? &&
            Trim(p.acceptanceCriteria.value) != current.acceptanceCriteria.value then Some(CriteriaStable)
    else if p.status == Some(Completed) && current.status != Completed && !Present(p.evidence) then
      Some(EvidenceRequired)
    else None
  }

  function KeptDependencies(current: Task, p: Params): seq<int> {
    Filter((b: int) => b !in p.removeBlockedBy, current.blockedBy)
  }

  function AddedDependencies(current: Task, p: Params): seq<int> {
    var kept := KeptDependencies(current, p);
    Filter((b: int) => b !in kept, p.addBlockedBy)
  }

  function MergeMetadata(current: map<string, Json>, change: map<string, Json>): map<string, Json> {
    map k | k in current.Keys + change.Keys && (k in change ==> change[k] != Null) ::
      if k in change then change[k] else current[k]
  }

  function UpdatedTask(current: Task, p: Params): Task {
    Task(
      current.id,
      if p.subject.Some? then p.subject.value else current.subject,
      if p.kind.Some? then p.kind else current.kind,
      match p.parentId case Keep => current.parentId case Detach => None case Under(g) => Some(g),
      if p.description.Some? then p.description else current.description,
      if p.acceptanceCriteria.Some? then Some(Trim(p.acceptanceCriteria.value)) else current.acceptanceCriteria,
      if p.evidence.Some? then Some(Trim(p.evidence.value)) else current.evidence,
      if p.activeForm.Some? then p.activeForm else current.activeForm,
      if p.status.Some? then p.status.value else current.status,
      KeptDependencies(current, p) + AddedDependencies(current, p),
      if p.owner.Some? then p.owner else current.owner,
      if p.metadata.Some? then MergeMetadata(current.metadata, p.metadata.value) else current.metadata)
  }

  function ReplaceTask(tasks: seq<Task>, id: int, next: Task): seq<Task> {
    MapTasks((t: Task) => if t.id == id then next else t, tasks)
  }

  /** An update that has passed every other check and whose added dependencies close no cycle. */
  function CommitUpdate(s: State, current: Task, p: Params): Step {
    Next(s.(tasks := ReplaceTask(s.tasks, current.id, UpdatedTask(current, p))))
  }

  /** Either the update is already refused, or the task it applies to. */
  datatype Checked = Refused(error: Error) | Allowed(current: Task)

  function CheckUpdate(s: State, p: Params): (r: Checked)
    ensures r.Allowed? ==> p.id.Some? && Find(s.tasks, p.id.value) == Some(r.current)
    ensures r.Allowed? ==> UpdateError(r.current, p).None?
    ensures r.Allowed? ==> DependencyError(s.tasks, p.addBlockedBy, Some(r.current.id)).None?
  {
    if p.id.None? then Refused(IdRequired)
    else
      var found := Find(s.tasks, p.id.value);
      if found.None? then Refused(NotFound(p.id.value))
      else
        var error := UpdateError(found.value, p);
        if error.Some? then Refused(error.value)
        else
          var depError := DependencyError(s.tasks, p.addBlockedBy, Some(found.value.id));
          if depError.Some? then Refused(depError.value) else Allowed(found.value)
  }

  function DeleteTask(s: State, p: Params): Step {
    if p.id.None? then Rejected(IdRequired)
    else
      var found := Find(s.tasks, p.id.value);
      if found.None? then Rejected(NotFound(p.id.value))
      else if !found.value.Live() then Rejected(AlreadyDeleted(p.id.value))
      else Next(s.(tasks := MapTasks((t: Task) => if t.id == found.value.id then t.(status := Deleted)
        else t, s.tasks)))
  }

  function GetTask(s: State, p: Params): Step {
    if p.id.None? then Rejected(IdRequired)
    else if Find(s.tasks, p.id.value).None? then Rejected(NotFound(p.id.value))
    else Unchanged
  }

  ghost function ReduceAction(s: State, p: Params): Step {
    match p.action
    case Create => CreateTask(s, p)
    case Update =>
      (match CheckUpdate(s, p)
       case Refused(error) => Rejected(error)
       case Allowed(current) =>
         if SomeReaches(Dependencies(s.tasks), AddedDependencies(current, p), current.id)
         then Rejected(WouldCreateCycle)
         else CommitUpdate(s, current, p))
    case List => Unchanged
    case Get => GetTask(s, p)
    case Delete => DeleteTask(s, p)
    case Clear => Next(EMPTY)
  }

  // ---- the whole reducer ----

  predicate DistinctOwners(a: Task, b: Task) {
    Present(a.owner) && Present(b.owner) && Trim(a.owner.value) != Trim(b.owner.value)
  }

  /** What starting `active` does to another task. */
  function YieldTask(active: Task, t: Task): Task {
    if t.id == active.id || !t.Active() || DistinctOwners(active, t) then t else t.(status := Pending)
  }

  /** Starting or editing an active task returns conflicting active tasks to pending. */
  function Exclude(s: State, p: Params): State {
    var updated := if p.action == Update && p.id.Some? then Find(s.tasks, p.id.value) else None;
    if updated.Some? && updated.value.Active() then
      s.(tasks := MapTasks((t: Task) => YieldTask(updated.value, t), s.tasks))
    else s
  }

  datatype Outcome = Outcome(state: State, error: Option<Error>)

  function Finish(s: State, p: Params, step: Step): Outcome {
    match step
    case Rejected(error) => Outcome(s, Some(error))
    case Unchanged => Outcome(s, None)
    case Next(next) =>
      var error := GroupingError(next.tasks);
      if error.Some? then Outcome(s, error) else Outcome(DeriveGroups(Exclude(next, p)), None)
  }

  ghost function Reduce(s: State, p: Params): Outcome {
    Finish(s, p, ReduceAction(s, p))
  }

  /** The reducer as it runs: the cycle question is answered by the search. */
  method RunReduce(s: State, p: Params) returns (outcome: Outcome)
    ensures outcome == Reduce(s, p)
  {
    var step: Step;
    match p.action {
      case Create => step := CreateTask(s, p);
      case Update =>
        match CheckUpdate(s, p) {
          case Refused(error) => step := Rejected(error);
          case Allowed(current) =>
            var adding := AddedDependencies(current, p);
            var cycle := false;
            if adding != [] {
              cycle := WouldCycle(Dependencies(s.tasks), current.id, adding);
            }
            step := if cycle then Rejected(WouldCreateCycle) else CommitUpdate(s, current, p);
        }
      case List => step := Unchanged;
      case Get => step := GetTask(s, p);
      case Delete => step := DeleteTask(s, p);
      case Clear => step := Next(EMPTY);
    }
    outcome := Finish(s, p, step);
  }
}
