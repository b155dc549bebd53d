/** The todo tool: the list it holds in memory and the session log it writes and replays. */
module TodoTool {
  import opened Prelude
  import opened TodoState
  import opened TodoInvariant

  /** What a session branch holds, as far as replay looks at it. */
  datatype Entry =
    | ToolResult(state: State)
    | PauseEntry(state: State)
    /** A todo entry whose task list or next id is missing. */
    | Malformed
    | Other

  function Recorded(e: Entry): Option<State> {
    match e
    case ToolResult(s) => Some(s)
    case PauseEntry(s) => Some(s)
    case Malformed => None
    case Other => None
  }

  /** The latest list recorded on a branch, with group status derived again, or the empty list. */
  function Replayed(branch: seq<Entry>): State {
    if branch == [] then EMPTY
    else
      var last := Recorded(branch[|branch| - 1]);
      if last.Some? then DeriveGroups(last.value) else Replayed(branch[..|branch| - 1])
  }

  /** A branch the tool wrote, mixed with entries of others. */
  ghost predicate Written(branch: seq<Entry>) {
    forall i :: 0 <= i < |branch| && Recorded(branch[i]).Some? ==> Inv(Recorded(branch[i]).value)
  }

  method Replay(entries: seq<Entry>) returns (s: State)
    ensures s == Replayed(entries)
  {
    var i := |entries|;
    assert entries[..i] == entries;
    while i > 0
      invariant 0 <= i <= |entries|
      invariant Replayed(entries) == Replayed(entries[..i])
    {
      i := i - 1;
      assert entries[..i + 1][..i] == entries[..i];
      var d := Recorded(entries[i]);
      if d.Some? {
        return DeriveGroups(d.value);
      }
    }
    s := EMPTY;
  }

  /** Any branch of a written session, however it was cut, replays to a list that satisfies the invariant. */
  lemma {:induction false} ReplayedInv(branch: seq<Entry>)
    requires Written(branch)
    ensures Inv(Replayed(branch))
  {
    if branch == [] {
      EmptyInv();
    } else {
      var last := Recorded(branch[|branch| - 1]);
      if last.Some? {
        DeriveGroupsIdempotent(last.value);
      } else {
        ReplayedInv(branch[..|branch| - 1]);
      }
    }
  }

  /** Replay gives back a state as it was recorded, whatever follows that is not a todo entry. */
  lemma {:induction false} ReplayedLast(branch: seq<Entry>, s: State, rest: seq<Entry>)
    requires branch != [] && Recorded(branch[|branch| - 1]) == Some(s) && Inv(s)
    requires forall e :: e in rest ==> Recorded(e).None?
    ensures Replayed(branch + rest) == s
  {
    if rest == [] {
      assert branch + rest == branch;
      DeriveGroupsIdempotent(s);
    } else {
      assert (branch + rest)[..|branch + rest| - 1] == branch + rest[..|rest| - 1];
      ReplayedLast(branch, s, rest[..|rest| - 1]);
    }
  }

  predicate HasActive(s: State) {
    exists t :: t in s.tasks && t.Active()
  }

  class Tool {
    var state: State
    /** The session branch: the tool's own entries and everything else that is appended to it. */
    var log: seq<Entry>

    ghost predicate Valid()
      reads this
    {
      Inv(state) && Written(log) && Replayed(log) == state
    }

    constructor ()
      ensures Valid() && state == EMPTY && log == []
    {
      state := EMPTY;
      log := [];
      EmptyInv();
    }

    method Execute(p: Params) returns (error: Option<Error>)
      modifies this
      ensures old(Valid()) ==> Valid()
      ensures state == Reduce(old(state), p).state && error == Reduce(old(state), p).error
      ensures error.Some? ==> state == old(state)
      ensures log == old(log) + [ToolResult(state)]
    {
      if Inv(state) {
        ReduceKeeps(state, p);
      }
      var outcome := RunReduce(state, p);
      state := outcome.state;
      error := outcome.error;
      log := log + [ToolResult(state)];
      assert log + [] == log;
      if Inv(state) {
        ReplayedLast(log, state, []);
      }
    }

    method PauseWork()
      modifies this
      ensures old(Valid()) ==> Valid()
      ensures forall t :: t in state.tasks ==> !t.Active()
      ensures if exists t :: t in old(state).tasks && t.kind != Some(GroupKind) && t.status == InProgress
              then state == PauseActive(old(state)) && log == old(log) + [PauseEntry(state)]
              else state == old(state) && log == old(log)
    {
      hide Inv, PauseActive;
      if HasActive(state) {
        if Inv(state) {
          PauseKeeps(state);
        }
        PausedIdle(state);
        state := PauseActive(state);
        log := log + [PauseEntry(state)];
        assert log + [] == log;
        if Inv(state) {
          ReplayedLast(log, state, []);
        }
      }
    }

    /** Other parts of the session append entries of their own. */
    method Append(e: Entry)
      requires Valid() && Recorded(e).None?
      modifies this`log
      ensures Valid() && log == old(log) + [e]
    {
      log := log + [e];
      assert log[..|log| - 1] == old(log);
    }

    /**
      The session moved to another branch, or was compacted: read the list back from it. Lists that this
      tool wrote leave it valid; those of another version are taken as they are.
     */
    method Load(branch: seq<Entry>, pause: bool)
      modifies this
      ensures Written(branch) ==> Valid()
      ensures pause ==> forall t :: t in state.tasks ==> !t.Active()
      ensures if pause && exists t :: t in Replayed(branch).tasks && t.kind != Some(GroupKind) && t.status == InProgress
              then state == PauseActive(Replayed(branch)) && log == branch + [PauseEntry(state)]
              else state == Replayed(branch) && log == branch
    {
      if Written(branch) {
        ReplayedInv(branch);
      }
      state := Replay(branch);
      log := branch;
      if pause {
        PauseWork();
      }
    }
  }
}
