/** What one handle on a shared remote does and returns, read off the steps of a whole pass. */
module RemoteHandles {
  import opened Common
  import opened ProvisionerTree
  import opened RemoteCluster

  /** The steps of handle `i` in a run. */
  ghost function Mine(run: seq<Step>, i: nat): seq<Step> {
    if run == [] then []
    else Mine(run[..|run| - 1], i) + if run[|run| - 1].i == i then [run[|run| - 1]] else []
  }

  lemma {:induction false} MineAreThose(run: seq<Step>, i: nat)
    ensures forall x: Step :: x in Mine(run, i) <==> x in run && x.i == i
    decreases |run|
  {
    if run != [] {
      var n := |run| - 1;
      MineAreThose(run[..n], i);
      assert run == run[..n] + [run[n]];
    }
  }

  lemma MineAppended(run: seq<Step>, step: Step, i: nat)
    ensures Mine(run + [step], i) == Mine(run, i) + if step.i == i then [step] else []
  {
    assert (run + [step])[..|run|] == run;
  }

  function Begins(d: Dir, i: nat): Event {
    if d.Provision? then RegisterBegins(i) else DeleteBegins(i)
  }

  function Ends(d: Dir, ok: bool): Event {
    if d.Provision? then RegisterEnds(ok) else DeleteEnds(ok)
  }

  /** The handle called the driver. */
  ghost predicate Called(s: State, i: nat)
    requires i < |s.dirs|
  {
    Begins(s.dirs[i], i) in s.log
  }

  /** Through the lock, and through the driver call without error if there was one. */
  ghost predicate Through(mine: seq<Step>, i: nat, called: bool) {
    && |mine| == 2 && mine[0] == Acquire(i) && mine[1].Release? && mine[1].i == i
    && (called ==> mine[1].ok)
  }

  /** The child's part of a deprovisioning, over without error. */
  ghost predicate ChildGone(mine: seq<Step>, i: nat) {
    mine == [Connect(i, ConfigGone)] || mine == [Connect(i, Connected), ChildEnds(i, true)]
  }

  /** How a provisioning handle that did `mine` stands. */
  ghost predicate ProvisionStory(mine: seq<Step>, i: nat, called: bool, pc: Pc) {
    match pc
    case Ready => mine == [] && !called
    case Locked(calling) => mine == [Acquire(i)] && calling == called
    case Connecting => Through(mine, i, called)
    case InChild => |mine| == 3 && Through(mine[..2], i, called) && mine[2] == Connect(i, Connected)
    case AwaitingLock => false
    case Done(ok) =>
      if |mine| == 2 then called && !ok && mine == [Acquire(i), Release(i, false)]
      else
        && |mine| > 2 && Through(mine[..2], i, called)
        && if |mine| == 3 then !ok && (mine[2] == Connect(i, ConfigGone) || mine[2] == Connect(i, ConnectError))
           else |mine| == 4 && mine[2] == Connect(i, Connected) && mine[3] == ChildEnds(i, ok)
  }

  /** The same for a deprovisioning one. */
  ghost predicate DeprovisionStory(mine: seq<Step>, i: nat, called: bool, pc: Pc) {
    var n := |mine|;
    match pc
    case Ready => mine == [] && !called
    case InChild => mine == [Connect(i, Connected)] && !called
    case AwaitingLock => ChildGone(mine, i) && !called
    case Locked(calling) => n > 0 && ChildGone(mine[..n - 1], i) && mine[n - 1] == Acquire(i) && calling == called
    case Connecting => false
    case Done(ok) =>
      if n <= 2 then
        && !called && !ok
        && (mine == [Connect(i, ConnectError)] || mine == [Connect(i, Connected), ChildEnds(i, false)])
      else
        && ChildGone(mine[..n - 2], i) && mine[n - 2] == Acquire(i) && mine[n - 1].Release? && mine[n - 1].i == i
        && (ok <==> called ==> mine[n - 1].ok)
  }

  /** What handle `i` did in the run that led to `s` and where it stands agree. */
  ghost predicate Story(s: State, run: seq<Step>, i: nat) {
    && i < |s.dirs| == |s.pcs|
    && (if s.dirs[i].Provision? then ProvisionStory(Mine(run, i), i, Called(s, i), s.pcs[i])
        else DeprovisionStory(Mine(run, i), i, Called(s, i), s.pcs[i]))
  }

  /** Only a handle that takes the lock begins a driver call, and its own. */
  lemma CallsLogged(s: State, step: Step, i: nat)
    requires Enabled(s, step) && i < |s.dirs|
    ensures
      var s' := Apply(s, step);
      var calls := step == Acquire(i) && Calls(s.controller, |s.dirs|, s.dirs[i], |s.took| + 1);
      && (RegisterBegins(i) in s'.log <==> RegisterBegins(i) in s.log || (calls && s.dirs[i].Provision?))
      && (DeleteBegins(i) in s'.log <==> DeleteBegins(i) in s.log || (calls && s.dirs[i].Deprovision?))
  {
  }

  lemma SameStory(s: State, s': State, run: seq<Step>, run': seq<Step>, i: nat)
    requires Story(s, run, i) && s'.dirs == s.dirs && |s'.pcs| == |s.pcs| && s'.pcs[i] == s.pcs[i]
    requires (Called(s', i) <==> Called(s, i)) && Mine(run', i) == Mine(run, i)
    ensures Story(s', run', i)
  {
  }

  lemma OthersStepKeepsStory(s: State, past: seq<Step>, step: Step, i: nat)
    requires Story(s, past, i) && Enabled(s, step) && step.i != i
    ensures Story(Apply(s, step), past + [step], i)
  {
    MineAppended(past, step, i);
    CallsLogged(s, step, i);
    SameStory(s, Apply(s, step), past, past + [step], i);
  }

  lemma ProvisionStepKeepsStory(s: State, past: seq<Step>, step: Step)
    requires Story(s, past, step.i) && Enabled(s, step) && s.dirs[step.i].Provision?
    ensures Story(Apply(s, step), past + [step], step.i)
  {
    MineAppended(past, step, step.i);
    CallsLogged(s, step, step.i);
    var mine := Mine(past, step.i);
    assert (mine + [step])[..|mine|] == mine;
    assert |mine| > 2 ==> (mine + [step])[..2] == mine[..2];
  }

  /** Where a deprovisioning handle stands before it comes to the lock. */
  lemma BeforeTheLock(i: nat)
    ensures DeprovisionStory([Connect(i, Connected)], i, false, InChild)
    ensures DeprovisionStory([Connect(i, ConfigGone)], i, false, AwaitingLock)
    ensures DeprovisionStory([Connect(i, ConnectError)], i, false, Done(false))
    ensures DeprovisionStory([Connect(i, Connected), ChildEnds(i, true)], i, false, AwaitingLock)
    ensures DeprovisionStory([Connect(i, Connected), ChildEnds(i, false)], i, false, Done(false))
  {
  }

  /** A handle that had done `before` does one more step and stands at `pc`. */
  lemma OneStepFurther(s': State, past: seq<Step>, step: Step, before: seq<Step>, pc: Pc)
    requires step.i < |s'.dirs| == |s'.pcs| && s'.dirs[step.i].Deprovision? && s'.pcs[step.i] == pc
    requires Mine(past, step.i) == before && DeprovisionStory(before + [step], step.i, Called(s', step.i), pc)
    ensures Story(s', past + [step], step.i)
  {
    MineAppended(past, step, step.i);
  }

  lemma ConnectKeepsStory(s: State, past: seq<Step>, i: nat, connection: Connection)
    requires Story(s, past, i) && Enabled(s, Connect(i, connection)) && s.dirs[i].Deprovision?
    ensures Story(Apply(s, Connect(i, connection)), past + [Connect(i, connection)], i)
  {
    var step := Connect(i, connection);
    CallsLogged(s, step, i);
    BeforeTheLock(i);
    assert [] + [step] == [step];
    OneStepFurther(Apply(s, step), past, step, [], Apply(s, step).pcs[i]);
  }

  lemma ChildEndKeepsStory(s: State, past: seq<Step>, i: nat, ok: bool)
    requires Story(s, past, i) && Enabled(s, ChildEnds(i, ok)) && s.dirs[i].Deprovision?
    ensures Story(Apply(s, ChildEnds(i, ok)), past + [ChildEnds(i, ok)], i)
  {
    var step := ChildEnds(i, ok);
    CallsLogged(s, step, i);
    BeforeTheLock(i);
    assert [Connect(i, Connected)] + [step] == [Connect(i, Connected), step];
    OneStepFurther(Apply(s, step), past, step, [Connect(i, Connected)], Apply(s, step).pcs[i]);
  }

  /** A deprovisioning handle takes or releases the lock. */
  lemma LockStepKeepsStory(s: State, past: seq<Step>, step: Step)
    requires Story(s, past, step.i) && Enabled(s, step) && s.dirs[step.i].Deprovision?
    requires step.Acquire? || step.Release?
    ensures Story(Apply(s, step), past + [step], step.i)
  {
    MineAppended(past, step, step.i);
    CallsLogged(s, step, step.i);
    var mine := Mine(past, step.i);
    var longer := mine + [step];
    assert longer[..|longer| - 1] == mine;
    assert step.Release? ==> longer[..|longer| - 2] == mine[..|mine| - 1];
  }

  lemma StepKeepsStory(s: State, past: seq<Step>, step: Step, i: nat)
    requires Story(s, past, i) && Enabled(s, step)
    ensures Story(Apply(s, step), past + [step], i)
  {
    if step.i != i {
      OthersStepKeepsStory(s, past, step, i);
    } else if s.dirs[i].Provision? {
      ProvisionStepKeepsStory(s, past, step);
    } else {
      match step
      case Connect(_, connection) => ConnectKeepsStory(s, past, i, connection);
      case ChildEnds(_, ok) => ChildEndKeepsStory(s, past, i, ok);
      case _ => LockStepKeepsStory(s, past, step);
    }
  }

  lemma {:induction false} RunKeepsStory(s: State, past: seq<Step>, run: seq<Step>, i: nat)
    requires Story(s, past, i) && Legal(s, run)
    ensures Story(Exec(s, run), past + run, i) && Exec(s, run).dirs == s.dirs
    decreases |run|
  {
    if run == [] {
      assert past + run == past;
    } else {
      StepKeepsStory(s, past, run[0], i);
      RunKeepsStory(Apply(s, run[0]), past + [run[0]], run[1..], i);
      assert past + [run[0]] + run[1..] == past + run;
    }
  }

  /** The registration, the connection and the child all succeeded. */
  ghost predicate ProvisionSucceeded(run: seq<Step>, i: nat, called: bool) {
    (called ==> Release(i, true) in run) && Connect(i, Connected) in run && ChildEnds(i, true) in run
  }

  ghost predicate ProvisionFailed(run: seq<Step>, i: nat, called: bool) {
    || (called && Release(i, false) in run)
    || Connect(i, ConfigGone) in run || Connect(i, ConnectError) in run
    || ChildEnds(i, false) in run
  }

  /** The child finished or its cluster's configuration was gone, the handle was counted, and its
      deletion succeeded if it was the one to delete. */
  ghost predicate DeprovisionSucceeded(run: seq<Step>, i: nat, called: bool) {
    && (ChildEnds(i, true) in run || Connect(i, ConfigGone) in run)
    && (Release(i, true) in run || (!called && Release(i, false) in run))
  }

  ghost predicate DeprovisionFailed(run: seq<Step>, i: nat, called: bool) {
    || Connect(i, ConnectError) in run || ChildEnds(i, false) in run
    || (called && Release(i, false) in run)
  }

  lemma ProvisionReturns(mine: seq<Step>, i: nat, called: bool, pc: Pc)
    requires ProvisionStory(mine, i, called, pc)
    ensures pc == Done(true) <==> ProvisionSucceeded(mine, i, called)
    ensures pc == Done(false) <==> ProvisionFailed(mine, i, called)
  {
    if |mine| > 2 { assert mine[..2][0] == mine[0] && mine[..2][1] == mine[1]; }
    if |mine| == 4 { assert mine[2] in mine && mine[3] in mine; }
  }

  lemma DeprovisionReturns(mine: seq<Step>, i: nat, called: bool, pc: Pc)
    requires DeprovisionStory(mine, i, called, pc)
    ensures pc == Done(true) <==> DeprovisionSucceeded(mine, i, called)
    ensures pc == Done(false) <==> DeprovisionFailed(mine, i, called)
  {
    var n := |mine|;
    if n > 2 {
      assert mine == mine[..n - 2] + [mine[n - 2], mine[n - 1]];
    } else if n > 1 {
      assert mine == mine[..n - 1] + [mine[n - 1]];
    }
  }

  lemma SameForMine(run: seq<Step>, i: nat, called: bool)
    ensures ProvisionSucceeded(run, i, called) <==> ProvisionSucceeded(Mine(run, i), i, called)
    ensures ProvisionFailed(run, i, called) <==> ProvisionFailed(Mine(run, i), i, called)
    ensures DeprovisionSucceeded(run, i, called) <==> DeprovisionSucceeded(Mine(run, i), i, called)
    ensures DeprovisionFailed(run, i, called) <==> DeprovisionFailed(Mine(run, i), i, called)
  {
    MineAreThose(run, i);
  }

  /** The handle has returned nil iff its steps succeeded, and an error iff one of them failed. */
  ghost predicate ReturnTold(s: State, run: seq<Step>, i: nat)
    requires i < |s.dirs| == |s.pcs|
  {
    if s.dirs[i].Provision? then
      && (s.pcs[i] == Done(true) <==> ProvisionSucceeded(run, i, RegisterBegins(i) in s.log))
      && (s.pcs[i] == Done(false) <==> ProvisionFailed(run, i, RegisterBegins(i) in s.log))
    else
      && (s.pcs[i] == Done(true) <==> DeprovisionSucceeded(run, i, DeleteBegins(i) in s.log))
      && (s.pcs[i] == Done(false) <==> DeprovisionFailed(run, i, DeleteBegins(i) in s.log))
  }

  lemma StoryTellsReturn(s: State, run: seq<Step>, i: nat)
    requires Story(s, run, i)
    ensures ReturnTold(s, run, i)
  {
    SameForMine(run, i, Called(s, i));
    if s.dirs[i].Provision? {
      ProvisionReturns(Mine(run, i), i, Called(s, i), s.pcs[i]);
    } else {
      DeprovisionReturns(Mine(run, i), i, Called(s, i), s.pcs[i]);
    }
  }

  /** In every pass, whatever the directions and the interleaving, a handle returns nil exactly if all
      its own steps succeeded, and an error exactly if one of them failed. */
  lemma HandleReturns(s: State, run: seq<Step>, i: nat)
    requires Init(s) && i < |s.dirs| && Legal(s, run)
    ensures
      var s' := Exec(s, run);
      s'.dirs == s.dirs && |s'.pcs| == |s.pcs| && ReturnTold(s', run, i)
  {
    RunKeepsStory(s, [], run, i);
    assert [] + run == run;
    StoryTellsReturn(Exec(s, run), run, i);
  }

  // ---------------------------------------------------------------- who did what

  /** The handle registers iff it provisions and is the first one counted, and deletes iff it
      deprovisions and is the last one of all. */
  ghost predicate CallerIs(s: State, i: nat)
    requires i < |s.dirs|
  {
    && (RegisterBegins(i) in s.log <==> s.controller && s.dirs[i].Provision? && s.took != [] && s.took[0] == i)
    && (DeleteBegins(i) in s.log <==>
          && s.controller && s.dirs[i].Deprovision?
          && s.took != [] && |s.took| == |s.dirs| && s.took[|s.took| - 1] == i)
  }

  ghost predicate CallersAre(s: State) {
    forall i: nat | i < |s.dirs| :: CallerIs(s, i)
  }

  /** Children begin and handles finish exactly where the steps of the run say so. */
  ghost predicate LogTells(s: State, run: seq<Step>) {
    forall i: nat | i < |s.dirs| ::
      && (ChildBegins(i) in s.log <==> Connect(i, Connected) in run)
      && (Finished(i) in s.log <==>
            ChildEnds(i, true) in run || (s.dirs[i].Deprovision? && Connect(i, ConfigGone) in run))
  }

  lemma StepKeepsCaller(s: State, step: Step, i: nat)
    requires Enabled(s, step) && i < |s.dirs| && CallerIs(s, i)
    requires step.Acquire? ==> |s.took| < |s.dirs|
    ensures CallerIs(Apply(s, step), i)
  {
    CallsLogged(s, step, i);
  }

  lemma StepKeepsCallers(s: State, step: Step)
    requires Inv(s) && CallersAre(s) && Enabled(s, step)
    ensures CallersAre(Apply(s, step))
  {
    if step.Acquire? {
      assert HandleOk(s, step.i);
      RoomLeft(s.took, |s.dirs|, step.i);
    }
    forall i: nat | i < |s.dirs| ensures CallerIs(Apply(s, step), i) {
      StepKeepsCaller(s, step, i);
    }
  }

  lemma StepKeepsTelling(s: State, past: seq<Step>, step: Step)
    requires LogTells(s, past) && Enabled(s, step)
    ensures LogTells(Apply(s, step), past + [step])
  {
    var s' := Apply(s, step);
    assert forall x: Step :: x in past + [step] <==> x in past || x == step;
    forall i: nat | i < |s.dirs|
      ensures ChildBegins(i) in s'.log <==> ChildBegins(i) in s.log || step == Connect(i, Connected)
      ensures Finished(i) in s'.log <==>
              || Finished(i) in s.log || step == ChildEnds(i, true)
              || (s.dirs[i].Deprovision? && step == Connect(i, ConfigGone))
    {
    }
  }

  /** A driver call ends as its caller's release says, and none ends that nobody began. */
  ghost predicate EndsTold(s: State, run: seq<Step>, d: Dir) {
    && (forall i: nat, ok | i < |s.dirs| && s.dirs[i] == d && Begins(d, i) in s.log ::
          Ends(d, ok) in s.log <==> Release(i, ok) in run)
    && (forall ok | Ends(d, ok) in s.log :: exists i: nat :: i < |s.dirs| && s.dirs[i] == d && Begins(d, i) in s.log)
  }

  lemma EventsOf(s: State, step: Step, d: Dir)
    requires Enabled(s, step)
    ensures
      var s' := Apply(s, step);
      && (forall ok :: Ends(d, ok) in s'.log <==>
            Ends(d, ok) in s.log || (step == Release(step.i, ok) && s.pcs[step.i].calling && s.dirs[step.i] == d))
      && (forall i: nat | i < |s.dirs| && s.dirs[i] == d :: Begins(d, i) in s'.log <==>
            Begins(d, i) in s.log || (step == Acquire(i) && s'.pcs[i].calling))
  {
  }

  /** At most one handle of a direction calls the driver. */
  lemma OneCaller(s: State, d: Dir, i: nat, j: nat)
    requires CallersAre(s) && i < |s.dirs| && j < |s.dirs| && s.dirs[i] == s.dirs[j] == d
    requires Begins(d, i) in s.log && Begins(d, j) in s.log
    ensures i == j
  {
    assert CallerIs(s, i) && CallerIs(s, j);
  }

  /** A handle about to take the lock has not released it before, and its caller's release is its own. */
  lemma ReleasedByCaller(s: State, run: seq<Step>, step: Step)
    requires Enabled(s, step) && Story(s, run, step.i)
    ensures step.Acquire? ==> !Called(s, step.i) && forall ok :: Release(step.i, ok) !in run
    ensures step.Release? ==> s.pcs[step.i].calling == Called(s, step.i)
  {
    MineAreThose(run, step.i);
    assert step.Acquire? ==> forall ok :: Release(step.i, ok) !in Mine(run, step.i);
  }

  /** The step of the handle is in keeping with what it did before. */
  ghost predicate InKeeping(s: State, past: seq<Step>, step: Step)
    requires Enabled(s, step)
  {
    && (step.Acquire? ==> forall ok :: Release(step.i, ok) !in past)
    && (step.Release? ==> s.pcs[step.i].calling == Called(s, step.i))
  }

  lemma EndsByCaller(s: State, past: seq<Step>, step: Step, d: Dir, i: nat, ok: bool)
    requires EndsTold(s, past, d) && Enabled(s, step) && CallersAre(Apply(s, step)) && InKeeping(s, past, step)
    requires i < |s.dirs| && s.dirs[i] == d && Begins(d, i) in Apply(s, step).log
    ensures Ends(d, ok) in Apply(s, step).log <==> Release(i, ok) in past || step == Release(i, ok)
  {
    var s' := Apply(s, step);
    EventsOf(s, step, d);
    if step.Release? && s.pcs[step.i].calling && s.dirs[step.i] == d { OneCaller(s', d, i, step.i); }
    if Begins(d, i) !in s.log && Ends(d, ok) in s.log {
      var j: nat :| j < |s.dirs| && s.dirs[j] == d && Begins(d, j) in s.log;
      OneCaller(s', d, i, j);
    }
  }

  lemma EndsWereBegun(s: State, past: seq<Step>, step: Step, d: Dir, ok: bool)
    requires EndsTold(s, past, d) && Enabled(s, step) && InKeeping(s, past, step) && Ends(d, ok) in Apply(s, step).log
    ensures exists i: nat :: i < |s.dirs| && s.dirs[i] == d && Begins(d, i) in Apply(s, step).log
  {
    EventsOf(s, step, d);
    if Ends(d, ok) in s.log {
      var i: nat :| i < |s.dirs| && s.dirs[i] == d && Begins(d, i) in s.log;
      assert Begins(d, i) in Apply(s, step).log;
    } else {
      assert Begins(d, step.i) in Apply(s, step).log;
    }
  }

  lemma StepKeepsEnds(s: State, past: seq<Step>, step: Step, d: Dir)
    requires EndsTold(s, past, d) && Enabled(s, step) && CallersAre(Apply(s, step)) && InKeeping(s, past, step)
    ensures EndsTold(Apply(s, step), past + [step], d)
  {
    var s', run := Apply(s, step), past + [step];
    assert forall x: Step :: x in run <==> x in past || x == step;
    forall i: nat, ok | i < |s.dirs| && s.dirs[i] == d && Begins(d, i) in s'.log
      ensures Ends(d, ok) in s'.log <==> Release(i, ok) in run
    {
      EndsByCaller(s, past, step, d, i, ok);
    }
    forall ok | Ends(d, ok) in s'.log
      ensures exists i: nat :: i < |s'.dirs| && s'.dirs[i] == d && Begins(d, i) in s'.log
    {
      EndsWereBegun(s, past, step, d, ok);
    }
  }

  ghost predicate AllTold(s: State, run: seq<Step>) {
    CallersAre(s) && LogTells(s, run) && EndsTold(s, run, Provision) && EndsTold(s, run, Deprovision)
  }

  ghost predicate Stories(s: State, run: seq<Step>) {
    forall i: nat | i < |s.dirs| :: Story(s, run, i)
  }

  lemma StepKeepsAllTold(s: State, past: seq<Step>, step: Step)
    requires Inv(s) && Stories(s, past) && AllTold(s, past) && Enabled(s, step)
    ensures AllTold(Apply(s, step), past + [step])
  {
    StepKeepsCallers(s, step);
    StepKeepsTelling(s, past, step);
    ReleasedByCaller(s, past, step);
    StepKeepsEnds(s, past, step, Provision);
    StepKeepsEnds(s, past, step, Deprovision);
  }

  lemma StepKeepsStories(s: State, past: seq<Step>, step: Step)
    requires Stories(s, past) && Enabled(s, step)
    ensures Stories(Apply(s, step), past + [step])
  {
    forall i: nat | i < |s.dirs| ensures Story(Apply(s, step), past + [step], i) {
      StepKeepsStory(s, past, step, i);
    }
  }

  lemma {:induction false} RunKeepsAllTold(s: State, past: seq<Step>, run: seq<Step>)
    requires Inv(s) && Stories(s, past) && AllTold(s, past) && Legal(s, run)
    ensures AllTold(Exec(s, run), past + run)
    decreases |run|
  {
    if run == [] {
      assert past + run == past;
    } else {
      StepKeepsInv(s, run[0]);
      StepKeepsStories(s, past, run[0]);
      StepKeepsAllTold(s, past, run[0]);
      RunKeepsAllTold(Apply(s, run[0]), past + [run[0]], run[1..]);
      assert past + [run[0]] + run[1..] == past + run;
    }
  }

  /** In every pass the log says who called the driver, how that call ended, and whose child began and
      finished. */
  lemma LogIsTrue(s: State, run: seq<Step>)
    requires Init(s) && Legal(s, run)
    ensures CallersAre(Exec(s, run)) && LogTells(Exec(s, run), run)
    ensures EndsTold(Exec(s, run), run, Provision) && EndsTold(Exec(s, run), run, Deprovision)
  {
    RunKeepsAllTold(s, [], run);
    assert [] + run == run;
  }
}
