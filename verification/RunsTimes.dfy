/** How long a run was thought about: the thinking before each of its calls, as far as it was measured. */
module RunsTimes {
  import opened Prelude
  import opened Runs
  import opened RunsMeaning
  import RunFeed

  /** Thinking that was measured, and whether some was not. */
  datatype Time = Time(ms: int, unknown: bool)

  const NOTHING := Time(0, false)

  function Plus(a: Time, b: Time): Time {
    Time(a.ms + b.ms, a.unknown || b.unknown)
  }

  /** What one moment takes. */
  function Took(x: Moment): Time {
    if x.Happens? && x.part.kind == ThinkingPart then
      if x.ms.Some? then Time(x.ms.value, false) else Time(0, true)
    else NOTHING
  }

  /** The thinking since the last call that came or break. */
  function Waiting(xs: seq<Moment>, folds: Folds): Time {
    if xs == [] then NOTHING
    else
      var n := |xs| - 1;
      if Joins(xs, n, folds) || Breaks(xs, n, folds) then NOTHING else Plus(Waiting(xs[..n], folds), Took(xs[n]))
  }

  /** Nothing breaks the run between two positions. */
  ghost predicate Together(xs: seq<Moment>, i: nat, k: nat, folds: Folds)
    requires i <= |xs| && k <= |xs|
  {
    if i <= k then Unbroken(xs, i, k, folds) else Unbroken(xs, k, i, folds)
  }

  /** The thinking before each of the first n moments that is a call of the same run as the one at i. */
  ghost function RunTime(xs: seq<Moment>, i: nat, n: nat, folds: Folds): Time
    requires i < |xs| && n <= |xs|
  {
    if n == 0 then NOTHING
    else
      Plus(RunTime(xs, i, n - 1, folds),
           if Joins(xs, n - 1, folds) && Together(xs, i, n - 1, folds) then Waiting(xs[..n - 1], folds) else NOTHING)
  }

  function TimeOf(run: ToolRun): Time {
    Time(run.thinkingMs, run.thinkingUnknown)
  }

  function PendingTime(m: Model): Time {
    Time(m.pendingMs, m.pendingUnknown)
  }

  /** The open run was begun by a call that nothing followed which would break it. */
  ghost predicate BegunBy(xs: seq<Moment>, m: Model, folds: Folds) {
    m.current.Some? ==> exists k :: 0 <= k < |xs| && Joins(xs, k, folds) && Unbroken(xs, k, |xs|, folds)
  }

  ghost predicate Timed(xs: seq<Moment>, m: Model, folds: Folds)
    requires Registered(xs, m, folds)
  {
    && PendingTime(m) == Waiting(xs, folds) && BegunBy(xs, m, folds)
    && forall i :: 0 <= i < |xs| && Joins(xs, i, folds) ==> RunTook(m, xs[i].part.id, RunTime(xs, i, |xs|, folds))
  }

  ghost predicate RunTook(m: Model, id: string, time: Time) {
    id in m.byCall && m.byCall[id] < |m.runs| && TimeOf(m.runs[m.byCall[id]]) == time
  }

  // ---- steps ----

  /** The runs took what they took before, but for the one that a call joined. */
  predicate OthersTook(a: Model, m: Model, joined: Option<nat>) {
    |m.runs| <= |a.runs| && forall r :: 0 <= r < |m.runs| && Some(r) != joined ==>
      TimeOf(a.runs[r]) == TimeOf(m.runs[r])
  }

  lemma CallTimes(m: Model, part: Part)
    requires Sound(m)
    ensures var a := AddCall(m, part);
      && OthersTook(a, m, Some(Target(m))) && PendingTime(a) == NOTHING && Target(m) < |a.runs|
      && TimeOf(a.runs[Target(m)]) ==
        Plus(if m.current.Some? then TimeOf(m.runs[m.current.value]) else NOTHING, PendingTime(m))
  {
    hide CallsSound, RunSound;
  }

  lemma StepTimes(xs: seq<Moment>, m: Model, folds: Folds)
    requires xs != [] && Sound(m) && Registered(xs[..|xs| - 1], m, folds)
    ensures var n := |xs| - 1;
      var a := Step(m, xs[n], folds);
      if Joins(xs, n, folds) then
        && OthersTook(a, m, Some(Target(m))) && PendingTime(a) == NOTHING && Target(m) < |a.runs|
        && TimeOf(a.runs[Target(m)]) ==
          Plus(if m.current.Some? then TimeOf(m.runs[m.current.value]) else NOTHING, PendingTime(m))
      else
        && OthersTook(a, m, None)
        && PendingTime(a) == if Breaks(xs, n, folds) then NOTHING else Plus(PendingTime(m), Took(xs[n]))
  {
    hide Registered, Sound, Trim, NewCall, AddCall, Mark;
    var n := |xs| - 1;
    if xs[n].Happens? {
      if IsCall(xs[n]) {
        NewToModel(xs, n, m, folds);
        CallTimes(m, xs[n].part);
      } else {
        OnlyCallsAreNew(xs, n);
      }
    } else {
      OnlyCallsAreNew(xs, n);
    }
  }

  // ---- the same run ----

  lemma UnbrokenApart(xs: seq<Moment>, i: nat, j: nat, k: nat, folds: Folds)
    requires i < j < k <= |xs|
    ensures Unbroken(xs, i, k, folds) <==>
      Unbroken(xs, i, j, folds) && !Breaks(xs, j, folds) && Unbroken(xs, j, k, folds)
  {
    hide Breaks;
  }

  lemma {:induction false} RunTimeEarlier(xs: seq<Moment>, i: nat, n: nat, upto: nat, folds: Folds)
    requires i < upto <= |xs| && n <= upto
    ensures RunTime(xs[..upto], i, n, folds) == RunTime(xs, i, n, folds)
  {
    hide Joins, Unbroken, Waiting;
    if n > 0 {
      RunTimeEarlier(xs, i, n - 1, upto, folds);
      Earlier(xs, upto, n - 1, folds);
      UnbrokenWithin(xs, i, n - 1, upto, folds);
      UnbrokenWithin(xs, n - 1, i, upto, folds);
      assert xs[..upto][..n - 1] == xs[..n - 1];
    }
  }

  /** Two calls of one run are calls of the same run as any third. */
  lemma {:induction false} SameRunTime(xs: seq<Moment>, i: nat, j: nat, n: nat, folds: Folds)
    requires i < j < |xs| && n <= j && Joins(xs, i, folds) && Unbroken(xs, i, j, folds)
    ensures RunTime(xs, i, n, folds) == RunTime(xs, j, n, folds)
  {
    hide Unbroken, Waiting, Breaks;
    if n > 0 {
      var k := n - 1;
      SameRunTime(xs, i, j, k, folds);
      if Joins(xs, k, folds) {
        JoiningDoesNotBreak(xs, k, folds);
        JoiningDoesNotBreak(xs, i, folds);
        if k < i {
          UnbrokenApart(xs, k, i, j, folds);
        } else if i < k {
          UnbrokenApart(xs, i, k, j, folds);
        } else {
          UnbrokenItself(xs, i, folds);
        }
      }
      hide Joins;
    }
  }

  lemma UnbrokenItself(xs: seq<Moment>, i: nat, folds: Folds)
    requires i <= |xs|
    ensures Unbroken(xs, i, i, folds)
  {
  }

  /** No earlier call is in the run that begins here. */
  lemma {:induction false} AloneSoFar(xs: seq<Moment>, j: nat, n: nat, folds: Folds)
    requires n <= j < |xs| && forall k :: 0 <= k < j && Joins(xs, k, folds) ==> !Unbroken(xs, k, j, folds)
    ensures RunTime(xs, j, n, folds) == NOTHING
  {
    hide Joins, Unbroken, Waiting;
    if n > 0 {
      AloneSoFar(xs, j, n - 1, folds);
    }
  }

  // ---- every run ----

  lemma JoiningHappens(xs: seq<Moment>, folds: Folds)
    ensures forall k :: 0 <= k < |xs| && Joins(xs, k, folds) ==> xs[k].Happens?
  {
  }

  lemma BegunNext(xs: seq<Moment>, m: Model, folds: Folds)
    requires xs != [] && Sound(m) && Registered(xs[..|xs| - 1], m, folds) && BegunBy(xs[..|xs| - 1], m, folds)
    ensures BegunBy(xs, Step(m, xs[|xs| - 1], folds), folds)
  {
    hide Step, Sound, Registered, Joins, Breaks, Unbroken, Trim;
    var n := |xs| - 1;
    StepEffect(xs, m, folds);
    if Joins(xs, n, folds) {
      UnbrokenLast(xs, folds);
    } else if !Breaks(xs, n, folds) && m.current.Some? {
      var k :| 0 <= k < n && Joins(xs[..n], k, folds) && Unbroken(xs[..n], k, n, folds);
      Earlier(xs, n, k, folds);
      UnbrokenEarlier(xs, k, n, folds);
      UnbrokenNext(xs, k, n, folds);
    }
  }

  /** The run of a call that came before. */
  lemma OldRunTook(xs: seq<Moment>, m: Model, folds: Folds, i: nat)
    requires xs != [] && Sound(m) && Registered(xs[..|xs| - 1], m, folds) && Grouped(xs[..|xs| - 1], m, folds)
    requires Timed(xs[..|xs| - 1], m, folds) && i < |xs| - 1 && Joins(xs, i, folds)
    ensures RunTook(Step(m, xs[|xs| - 1], folds), xs[i].part.id, RunTime(xs, i, |xs|, folds))
  {
    hide Step, Sound, Registered, Grouped, Unbroken, Breaks, Waiting, BegunBy, Joins;
    var n := |xs| - 1;
    JoiningHappens(xs, folds);
    Earlier(xs, n, i, folds);
    assert xs[..n][i] == xs[i];
    RunTimeEarlier(xs, i, n, n, folds);
    JoinsUnbroken(xs, m, folds, i);
    OldCallStays(xs, m, folds, i);
    StepTimes(xs, m, folds);
    TargetOpen(m, xs[i].part.id);
  }

  lemma TargetOpen(m: Model, id: string)
    requires id in m.byCall && m.byCall[id] < |m.runs|
    ensures m.byCall[id] == Target(m) ==> m.current == Some(Target(m))
  {
  }

  /** The run of a call that comes now. */
  lemma NewRunTook(xs: seq<Moment>, m: Model, folds: Folds)
    requires xs != [] && Sound(m) && Registered(xs[..|xs| - 1], m, folds) && Grouped(xs[..|xs| - 1], m, folds)
    requires Timed(xs[..|xs| - 1], m, folds) && Joins(xs, |xs| - 1, folds)
    ensures RunTook(Step(m, xs[|xs| - 1], folds), xs[|xs| - 1].part.id, RunTime(xs, |xs| - 1, |xs|, folds))
  {
    hide Step, Sound, Registered, Grouped, Unbroken, Breaks, Waiting, Joins;
    var n := |xs| - 1;
    StepEffect(xs, m, folds);
    StepTimes(xs, m, folds);
    UnbrokenItself(xs, n, folds);
    RunSoFar(xs, m, folds);
  }

  /** What the open run took, if there is one. */
  lemma RunSoFar(xs: seq<Moment>, m: Model, folds: Folds)
    requires xs != [] && Sound(m) && Registered(xs[..|xs| - 1], m, folds) && Grouped(xs[..|xs| - 1], m, folds)
    requires Timed(xs[..|xs| - 1], m, folds)
    ensures m.current.Some? ==> m.current.value < |m.runs|
    ensures RunTime(xs, |xs| - 1, |xs| - 1, folds) ==
      if m.current.Some? then TimeOf(m.runs[m.current.value]) else NOTHING
  {
    hide Sound, Registered, Grouped, Unbroken, Breaks, Waiting, Joins;
    var n := |xs| - 1;
    JoiningHappens(xs, folds);
    forall k | 0 <= k < n && Joins(xs, k, folds)
      ensures xs[k].part.id in m.byCall && (m.current == Some(m.byCall[xs[k].part.id]) <==> Unbroken(xs, k, n, folds))
    {
      JoinsUnbroken(xs, m, folds, k);
    }
    if m.current.Some? {
      var k :| 0 <= k < n && Joins(xs[..n], k, folds) && Unbroken(xs[..n], k, n, folds);
      Earlier(xs, n, k, folds);
      UnbrokenEarlier(xs, k, n, folds);
      SameRunTime(xs, k, n, n, folds);
      RunTimeEarlier(xs, k, n, n, folds);
      assert xs[..n][k] == xs[k];
    } else {
      AloneSoFar(xs, n, n, folds);
    }
  }

  lemma TimedStep(xs: seq<Moment>, m: Model, folds: Folds)
    requires xs != [] && Sound(m) && Registered(xs[..|xs| - 1], m, folds) && Grouped(xs[..|xs| - 1], m, folds)
    requires Timed(xs[..|xs| - 1], m, folds)
    ensures Registered(xs, Step(m, xs[|xs| - 1], folds), folds) && Timed(xs, Step(m, xs[|xs| - 1], folds), folds)
  {
    hide Step, Sound, Registered, Grouped, Breaks, Joins, RunTook;
    var n := |xs| - 1;
    RegisteredStep(xs, m, folds);
    BegunNext(xs, m, folds);
    StepTimes(xs, m, folds);
    JoiningDoesNotBreak(xs, n, folds);
    JoiningHappens(xs, folds);
    forall i | 0 <= i < |xs| && Joins(xs, i, folds)
      ensures RunTook(Step(m, xs[n], folds), xs[i].part.id, RunTime(xs, i, |xs|, folds))
    {
      if i < n {
        OldRunTook(xs, m, folds, i);
      } else {
        NewRunTook(xs, m, folds);
      }
    }
  }

  /**
    Over whatever happens, live or loaded: a run took the thinking before each of its calls, as far as it was
    measured, and is marked when some of it was not; what led to no call of the run is left out.
   */
  lemma {:induction false} RunsTook(xs: seq<Moment>, folds: Folds)
    ensures Registered(xs, Fold(EMPTY_MODEL, xs, folds), folds) && Timed(xs, Fold(EMPTY_MODEL, xs, folds), folds)
  {
    FoldGrouped(xs, folds);
    if xs != [] {
      var before := xs[..|xs| - 1];
      RunsTook(before, folds);
      FoldGrouped(before, folds);
      FoldSound(before, folds);
      hide Sound, Step, Registered, Grouped, Timed;
      TimedStep(xs, Fold(EMPTY_MODEL, before, folds), folds);
    }
  }

  /** A live message's parts, with the time each was fed with. */
  function TimedMoments(parts: seq<Part>, times: seq<Option<int>>): seq<Moment>
    requires |times| == |parts|
  {
    seq(|parts|, i requires 0 <= i < |parts| => Happens(parts[i], times[i]))
  }

  /** Feeding a live message's parts is what happens at those moments, in order. */
  lemma {:induction false} LivePartsFold(m: Model, parts: seq<Part>, times: seq<Option<int>>, folds: Folds)
    requires |times| == |parts|
    ensures RunFeed.AddTimed(m, parts, times, folds) == Fold(m, TimedMoments(parts, times), folds)
  {
    hide AddPart;
    if parts != [] {
      var n := |parts| - 1;
      LivePartsFold(m, parts[..n], times[..n], folds);
      assert TimedMoments(parts, times)[..n] == TimedMoments(parts[..n], times[..n]);
    }
  }
}
