/**
 A remote cluster shared by several provisioners: the first handle to take the lock registers
 it, the last one deletes it, decided by one counter that both directions increment.
 */
module RemoteCluster {
  import opened Common
  import opened ProvisionerTree

  /** Whether the handle that brings the counter to `count` calls the driver. */
  predicate Calls(controller: bool, refCount: nat, d: Dir, count: nat) {
    controller && count == if d.Provision? then 1 else refCount
  }

  /** The shared record, with the two places that count. */
  class Remote {
    const controller: bool
    var refCount: nat
    var currentCount: nat

    constructor (controller: bool)
      ensures this.controller == controller && refCount == 0 && currentCount == 0
    {
      this.controller, refCount, currentCount := controller, 0, 0;
    }

    method ProvisionOn() returns (handle: nat)
      modifies this`refCount
      ensures handle == old(refCount) && refCount == old(refCount) + 1
    {
      handle := refCount;
      refCount := refCount + 1;
    }

    /** Under the lock, before the child is provisioned. */
    method EnterProvision() returns (registers: bool)
      modifies this`currentCount
      ensures currentCount == old(currentCount) + 1
      ensures registers == Calls(controller, refCount, Provision, currentCount)
    {
      currentCount := currentCount + 1;
      registers := controller && currentCount == 1;
    }

    /** Under the lock, after the child is deprovisioned. */
    method EnterDeprovision() returns (deletes: bool)
      modifies this`currentCount
      ensures currentCount == old(currentCount) + 1
      ensures deletes == Calls(controller, refCount, Deprovision, currentCount)
    {
      currentCount := currentCount + 1;
      deletes := controller && currentCount == refCount;
    }
  }

  /** A handle's progress. Locked records whether it is in the driver call meanwhile. */
  datatype Pc = Ready | Locked(calling: bool) | Connecting | InChild | AwaitingLock | Done(ok: bool)

  datatype Event =
    | RegisterBegins(caller: nat)
    | RegisterEnds(ok: bool)
    | ChildBegins(handle: nat)
    | Finished(handle: nat)
    | DeleteBegins(caller: nat)
    | DeleteEnds(ok: bool)

  /** One pass over `|dirs|` handles, each in its own direction; `took` lists the handles in the
      order in which they took the lock, so its length is the shared counter. */
  datatype State = State(
    controller: bool,
    dirs: seq<Dir>,
    lock: Option<nat>,
    pcs: seq<Pc>,
    took: seq<nat>,
    log: seq<Event>)

  datatype Connection = Connected | ConfigGone | ConnectError

  datatype Step =
    | Acquire(i: nat)
    | Release(i: nat, ok: bool)
    | Connect(i: nat, connection: Connection)
    | ChildEnds(i: nat, ok: bool)

  ghost predicate Init(s: State) {
    && |s.pcs| == |s.dirs|
    && (forall i | 0 <= i < |s.pcs| :: s.pcs[i].Ready?)
    && s.lock == None && s.took == [] && s.log == []
  }

  predicate Enabled(s: State, step: Step) {
    && step.i < |s.dirs| == |s.pcs|
    && match step
       case Acquire(i) => s.lock.None? && if s.dirs[i].Provision? then s.pcs[i].Ready? else s.pcs[i].AwaitingLock?
       case Release(i, _) => s.lock == Some(i) && s.pcs[i].Locked?
       case Connect(i, _) => if s.dirs[i].Provision? then s.pcs[i].Connecting? else s.pcs[i].Ready?
       case ChildEnds(i, _) => s.pcs[i].InChild?
  }

  function At(s: State, i: nat, pc: Pc, events: seq<Event>): State
    requires i < |s.pcs|
  {
    s.(pcs := s.pcs[i := pc], log := s.log + events)
  }

  function Apply(s: State, step: Step): State
    requires Enabled(s, step)
  {
    var d := s.dirs[step.i];
    match step
    case Acquire(i) =>
      var calls := Calls(s.controller, |s.dirs|, d, |s.took| + 1);
      var events := if !calls then [] else if d.Provision? then [RegisterBegins(i)] else [DeleteBegins(i)];
      At(s, i, Locked(calls), events).(lock := Some(i), took := s.took + [i])
    case Release(i, ok) =>
      var calls := s.pcs[i].calling;
      var events := if !calls then [] else if d.Provision? then [RegisterEnds(ok)] else [DeleteEnds(ok)];
      var failed := calls && !ok;
      At(s, i, if failed then Done(false) else if d.Provision? then Connecting else Done(true), events).(lock := None)
    case Connect(i, connection) =>
      match connection {
        case Connected => At(s, i, InChild, [ChildBegins(i)])
        // a deprovision that finds the cluster's configuration gone has nothing left to do
        case ConfigGone => if d.Provision? then At(s, i, Done(false), []) else At(s, i, AwaitingLock, [Finished(i)])
        case ConnectError => At(s, i, Done(false), [])
      }
    case ChildEnds(i, ok) =>
      if d.Provision? then At(s, i, Done(ok), if ok then [Finished(i)] else [])
      else if ok then At(s, i, AwaitingLock, [Finished(i)])
      else At(s, i, Done(false), [])
  }

  predicate Legal(s: State, run: seq<Step>)
    decreases |run|
  {
    run != [] ==> Enabled(s, run[0]) && Legal(Apply(s, run[0]), run[1..])
  }

  function Exec(s: State, run: seq<Step>): State
    requires Legal(s, run)
    decreases |run|
  {
    if run == [] then s else Exec(Apply(s, run[0]), run[1..])
  }

  // ---------------------------------------------------------------- invariants

  /** The handle has been counted. */
  predicate Counted(d: Dir, pc: Pc) {
    match pc
    case Ready => false
    case AwaitingLock => false
    case Locked(_) => true
    case Connecting => true
    case InChild => d.Provision?
    case Done(ok) => d.Provision? || ok
  }

  ghost predicate HandleOk(s: State, i: nat)
    requires i < |s.dirs| == |s.pcs|
  {
    var d, pc := s.dirs[i], s.pcs[i];
    && (Counted(d, pc) ==> i in s.took)
    && (i in s.took ==> !pc.Ready? && !pc.AwaitingLock? && (d.Deprovision? ==> !pc.InChild?))
    && (pc.Connecting? ==> d.Provision?)
    && (pc.Locked? <==> s.lock == Some(i))
    && (d.Deprovision? ==> (pc.AwaitingLock? || i in s.took <==> Finished(i) in s.log))
  }

  ghost predicate TookOk(s: State) {
    && (forall i, j | 0 <= i < j < |s.took| :: s.took[i] != s.took[j])
    && (forall k | 0 <= k < |s.took| :: s.took[k] < |s.dirs|)
  }

  ghost predicate LockOk(s: State)
    requires |s.dirs| == |s.pcs|
  {
    s.lock.Some? ==>
      && s.lock.value < |s.dirs| && s.took != [] && s.took[|s.took| - 1] == s.lock.value
      && s.pcs[s.lock.value] == Locked(Calls(s.controller, |s.dirs|, s.dirs[s.lock.value], |s.took|))
  }

  ghost predicate CountInv(s: State) {
    && |s.pcs| == |s.dirs|
    && TookOk(s) && LockOk(s)
    && forall i: nat | i < |s.dirs| :: HandleOk(s, i)
  }

  /** The pass called for the remote to be registered, or deleted. */
  predicate Registers(s: State)
    requires forall k | 0 <= k < |s.took| :: s.took[k] < |s.dirs|
  {
    s.controller && s.took != [] && s.dirs[s.took[0]].Provision?
  }

  predicate Deletes(s: State)
    requires forall k | 0 <= k < |s.took| :: s.took[k] < |s.dirs|
  {
    s.controller && s.took != [] && |s.took| == |s.dirs| && s.dirs[s.took[|s.took| - 1]].Deprovision?
  }

  function Registrations(log: seq<Event>): nat {
    if log == [] then 0 else Registrations(log[..|log| - 1]) + if log[|log| - 1].RegisterBegins? then 1 else 0
  }

  function Deletions(log: seq<Event>): nat {
    if log == [] then 0 else Deletions(log[..|log| - 1]) + if log[|log| - 1].DeleteBegins? then 1 else 0
  }

  ghost predicate RegisterDone(log: seq<Event>) {
    exists ok :: RegisterEnds(ok) in log
  }

  ghost predicate LogInv(s: State)
    requires TookOk(s)
  {
    && Registrations(s.log) == (if Registers(s) then 1 else 0)
    && Deletions(s.log) == (if Deletes(s) then 1 else 0)
    && (Registers(s) && s.lock != Some(s.took[0]) ==> RegisterDone(s.log))
  }

  /** Every child begins after a registration attempt has ended. */
  ghost predicate RegisteredFirst(log: seq<Event>) {
    forall y | 0 <= y < |log| && log[y].ChildBegins? :: RegisterDone(log[..y])
  }

  /** Deletion begins after all `n` handles have finished without error. */
  ghost predicate DeletedLast(log: seq<Event>, n: nat) {
    forall y | 0 <= y < |log| && log[y].DeleteBegins? :: forall i: nat | i < n :: Finished(i) in log[..y]
  }

  ghost predicate AllIn(s: State, d: Dir) {
    forall i | 0 <= i < |s.dirs| :: s.dirs[i] == d
  }

  ghost predicate OrderInv(s: State) {
    && (s.controller && AllIn(s, Provision) ==> RegisteredFirst(s.log))
    && (AllIn(s, Deprovision) ==> DeletedLast(s.log, |s.dirs|))
  }

  ghost predicate Chronicled(s: State) {
    TookOk(s) && LogInv(s) && OrderInv(s)
  }

  ghost predicate Inv(s: State) {
    CountInv(s) && Chronicled(s)
  }

  lemma LogGrows(log: seq<Event>, e: Event, n: nat)
    ensures Registrations(log + [e]) == Registrations(log) + if e.RegisterBegins? then 1 else 0
    ensures Deletions(log + [e]) == Deletions(log) + if e.DeleteBegins? then 1 else 0
    ensures RegisteredFirst(log) && (e.ChildBegins? ==> RegisterDone(log)) ==> RegisteredFirst(log + [e])
    ensures DeletedLast(log, n) && (e.DeleteBegins? ==> forall i: nat | i < n :: Finished(i) in log) ==>
              DeletedLast(log + [e], n)
  {
    assert (log + [e])[..|log|] == log;
    forall y | 0 <= y < |log| ensures (log + [e])[..y] == log[..y] {
    }
  }

  /** A step of handle `i` leaves the others' bookkeeping intact. */
  lemma OthersStayOk(s: State, s': State, i: nat)
    requires CountInv(s) && i < |s.dirs| && s'.dirs == s.dirs && |s'.pcs| == |s.pcs|
    requires forall j | 0 <= j < |s.pcs| && j != i :: s'.pcs[j] == s.pcs[j]
    requires s'.took == s.took || s'.took == s.took + [i]
    requires s'.lock == s.lock || (s'.lock == Some(i) && s.lock.None?) || (s.lock == Some(i) && s'.lock.None?)
    requires s.log <= s'.log && forall j: nat | j != i && Finished(j) in s'.log :: Finished(j) in s.log
    requires HandleOk(s', i)
    ensures forall j: nat | j < |s'.dirs| :: HandleOk(s', j)
  {
    forall j: nat | j < |s'.dirs| ensures HandleOk(s', j) {
      assert HandleOk(s, j);
      assert j != i ==> (j in s'.took <==> j in s.took);
      assert Finished(j) in s.log ==> Finished(j) in s'.log;
    }
  }

  lemma AcquireKeepsCount(s: State, i: nat)
    requires CountInv(s) && Enabled(s, Acquire(i))
    ensures CountInv(Apply(s, Acquire(i)))
  {
    var s' := Apply(s, Acquire(i));
    assert HandleOk(s, i);
    assert s'.took[|s.took|] == i;
    OthersStayOk(s, s', i);
  }

  lemma ReleaseKeepsCount(s: State, i: nat, ok: bool)
    requires CountInv(s) && Enabled(s, Release(i, ok))
    ensures CountInv(Apply(s, Release(i, ok)))
  {
    var s' := Apply(s, Release(i, ok));
    assert HandleOk(s, i);
    assert Finished(i) in s'.log <==> Finished(i) in s.log;
    OthersStayOk(s, s', i);
  }

  /** A handle that does not hold the lock moves on, saying so if it has finished its part. */
  lemma UnlockedMoveKeepsCount(s: State, i: nat, pc: Pc, events: seq<Event>)
    requires CountInv(s) && i < |s.pcs| && !s.pcs[i].Locked? && !pc.Locked? && !pc.Ready? && |events| <= 1
    requires forall e | e in events :: e == ChildBegins(i) || e == Finished(i)
    requires s.dirs[i].Provision? ==> Counted(Provision, s.pcs[i]) && !pc.AwaitingLock?
    requires s.dirs[i].Deprovision? ==> (s.pcs[i].Ready? || s.pcs[i].InChild?) && !Counted(Deprovision, pc)
    requires s.dirs[i].Deprovision? ==> (pc.AwaitingLock? <==> Finished(i) in events)
    ensures CountInv(At(s, i, pc, events))
  {
    var s' := At(s, i, pc, events);
    assert HandleOk(s, i);
    assert Finished(i) in s'.log <==> Finished(i) in s.log || Finished(i) in events;
    OthersStayOk(s, s', i);
  }

  lemma UnlockedStepKeepsCount(s: State, step: Step)
    requires CountInv(s) && Enabled(s, step) && (step.Connect? || step.ChildEnds?)
    ensures CountInv(Apply(s, step))
  {
    var i := step.i;
    var s' := Apply(s, step);
    assert HandleOk(s, i);
    UnlockedMoveKeepsCount(s, i, s'.pcs[i], s'.log[|s.log|..]);
  }

  function Below(n: nat): (r: set<nat>)
    ensures |r| == n && forall x: nat :: x in r <==> x < n
  {
    if n == 0 then {} else Below(n - 1) + {n - 1}
  }

  function Members(took: seq<nat>): (r: set<nat>)
    ensures forall x :: x in r <==> x in took
  {
    set x | x in took
  }

  lemma {:induction false} SizeOfDistinct(took: seq<nat>)
    requires forall a, b | 0 <= a < b < |took| :: took[a] != took[b]
    ensures |Members(took)| == |took|
    decreases |took|
  {
    if took != [] {
      var n := |took| - 1;
      SizeOfDistinct(took[..n]);
      assert took == took[..n] + [took[n]];
      assert took[n] !in took[..n];
      assert Members(took) == Members(took[..n]) + {took[n]};
    }
  }

  /** Distinct handles below `n`, as many as there are: everyone is among them. */
  lemma AllTook(took: seq<nat>, n: nat)
    requires |took| == n && (forall k | 0 <= k < |took| :: took[k] < n)
    requires forall a, b | 0 <= a < b < |took| :: took[a] != took[b]
    ensures forall i: nat | i < n :: i in took
  {
    SizeOfDistinct(took);
    assert Members(took) <= Below(n);
    assert Below(n) == Members(took) + (Below(n) - Members(took));
    assert |Below(n)| == |Members(took)| + |Below(n) - Members(took)|;
  }

  lemma RoomLeft(took: seq<nat>, n: nat, i: nat)
    requires i < n && i !in took && (forall k | 0 <= k < |took| :: took[k] < n)
    requires forall a, b | 0 <= a < b < |took| :: took[a] != took[b]
    ensures |took| < n
  {
    SizeOfDistinct(took);
    assert Members(took) + {i} <= Below(n);
    assert Below(n) == (Members(took) + {i}) + (Below(n) - (Members(took) + {i}));
  }

  // ---------------------------------------------------------------- steps and runs

  /** When the last handle takes the lock in a deprovisioning pass, all have finished. */
  lemma AllFinished(s: State, s': State)
    requires CountInv(s) && AllIn(s, Deprovision) && TookOk(s') && s'.dirs == s.dirs && |s'.took| == |s.dirs|
    requires forall i: nat | i < |s.dirs| && i in s'.took :: i in s.took || s.pcs[i].AwaitingLock?
    ensures forall i: nat | i < |s.dirs| :: Finished(i) in s.log
  {
    AllTook(s'.took, |s.dirs|);
    forall i: nat | i < |s.dirs| ensures Finished(i) in s.log {
      assert HandleOk(s, i);
    }
  }

  /** With one more handle counted, a registration is due iff it was or this is the first one, and a
      deletion iff this is the last one. */
  lemma AcquireDecides(s: State, i: nat)
    requires TookOk(s) && Enabled(s, Acquire(i)) && TookOk(Apply(s, Acquire(i))) && |s.took| < |s.dirs|
    ensures
      var s' := Apply(s, Acquire(i));
      var calls := Calls(s.controller, |s.dirs|, s.dirs[i], |s.took| + 1);
      && !Deletes(s) && (Deletes(s') <==> calls && s.dirs[i].Deprovision?)
      && (Registers(s') <==> Registers(s) || (calls && s.dirs[i].Provision?))
      && (calls && s.dirs[i].Provision? ==> !Registers(s) && s'.lock == Some(s'.took[0]))
      && (s.took != [] ==> s'.took[0] == s.took[0])
  {
    var s' := Apply(s, Acquire(i));
    assert s'.took[|s'.took| - 1] == i;
    assert s.took != [] ==> s'.took[0] == s.took[0];
  }

  lemma AcquireKeepsLog(s: State, i: nat)
    requires TookOk(s) && LogInv(s) && Enabled(s, Acquire(i)) && TookOk(Apply(s, Acquire(i))) && |s.took| < |s.dirs|
    requires s.took != [] ==> s.lock != Some(s.took[0])
    ensures LogInv(Apply(s, Acquire(i)))
  {
    var s' := Apply(s, Acquire(i));
    AcquireDecides(s, i);
    if Calls(s.controller, |s.dirs|, s.dirs[i], |s.took| + 1) {
      var e := if s.dirs[i].Provision? then RegisterBegins(i) else DeleteBegins(i);
      assert s'.log == s.log + [e];
      LogGrows(s.log, e, |s.dirs|);
      if RegisterDone(s.log) {
        var ok :| RegisterEnds(ok) in s.log;
        assert RegisterEnds(ok) in s'.log;
      }
    } else {
      assert s'.log == s.log;
    }
  }

  lemma AcquireKeepsOrder(s: State, i: nat)
    requires OrderInv(s) && Enabled(s, Acquire(i))
    requires AllIn(s, Deprovision) && |s.took| + 1 == |s.dirs| ==> forall j: nat | j < |s.dirs| :: Finished(j) in s.log
    ensures OrderInv(Apply(s, Acquire(i)))
  {
    var s' := Apply(s, Acquire(i));
    if Calls(s.controller, |s.dirs|, s.dirs[i], |s.took| + 1) {
      var e := if s.dirs[i].Provision? then RegisterBegins(i) else DeleteBegins(i);
      assert s'.log == s.log + [e];
      LogGrows(s.log, e, |s.dirs|);
    } else {
      assert s'.log == s.log;
    }
  }

  lemma AcquireKeepsInv(s: State, i: nat)
    requires Inv(s) && Enabled(s, Acquire(i))
    ensures Inv(Apply(s, Acquire(i)))
  {
    AcquireKeepsCount(s, i);
    assert HandleOk(s, i);
    RoomLeft(s.took, |s.dirs|, i);
    if AllIn(s, Deprovision) && |s.took| + 1 == |s.dirs| { AllFinished(s, Apply(s, Acquire(i))); }
    AcquireKeepsLog(s, i);
    AcquireKeepsOrder(s, i);
  }

  /** One more event that begins no driver call, with the same handles counted. */
  lemma EventKeepsLog(s: State, s': State, e: Event)
    requires Chronicled(s) && TookOk(s') && s'.log == s.log + [e] && !e.RegisterBegins? && !e.DeleteBegins?
    requires s'.took == s.took && s'.dirs == s.dirs && s'.controller == s.controller
    requires Registers(s) && s'.lock != Some(s.took[0]) ==> s.lock != Some(s.took[0]) || e.RegisterEnds?
    requires e.ChildBegins? && s.controller && AllIn(s, Provision) ==> RegisterDone(s.log)
    ensures LogInv(s') && OrderInv(s')
  {
    LogGrows(s.log, e, |s.dirs|);
    if e.RegisterEnds? { assert s'.log[|s.log|] == RegisterEnds(e.ok); }
    if RegisterDone(s.log) {
      var ok :| RegisterEnds(ok) in s.log;
      assert RegisterEnds(ok) in s'.log;
    }
  }

  /** A counted handle that does not hold the lock was counted after any registration ended. */
  lemma CountedMeansRegistered(s: State, i: nat)
    requires Inv(s) && s.controller && AllIn(s, Provision) && i in s.took && s.lock != Some(i)
    ensures RegisterDone(s.log)
  {
    assert s.lock != Some(s.took[0]);
  }

  lemma ReleaseKeepsInv(s: State, i: nat, ok: bool)
    requires Inv(s) && Enabled(s, Release(i, ok))
    ensures Inv(Apply(s, Release(i, ok)))
  {
    var s' := Apply(s, Release(i, ok));
    ReleaseKeepsCount(s, i, ok);
    if s.lock == Some(s.took[0]) { assert |s.took| == 1; }
    if s.pcs[i].calling {
      EventKeepsLog(s, s', if s.dirs[i].Provision? then RegisterEnds(ok) else DeleteEnds(ok));
    } else {
      assert s'.log == s.log;
    }
  }

  /** The same without any event. */
  lemma SilenceKeepsLog(s: State, s': State)
    requires Chronicled(s) && TookOk(s') && s'.log == s.log && s'.took == s.took && s'.lock == s.lock
    requires s'.dirs == s.dirs && s'.controller == s.controller
    ensures LogInv(s') && OrderInv(s')
  {
  }

  lemma ConnectKeepsLog(s: State, i: nat, connection: Connection)
    requires Inv(s) && Enabled(s, Connect(i, connection)) && TookOk(Apply(s, Connect(i, connection)))
    ensures LogInv(Apply(s, Connect(i, connection))) && OrderInv(Apply(s, Connect(i, connection)))
  {
    var s' := Apply(s, Connect(i, connection));
    if connection.Connected? {
      if s.controller && AllIn(s, Provision) {
        assert HandleOk(s, i);
        CountedMeansRegistered(s, i);
      }
      EventKeepsLog(s, s', ChildBegins(i));
    } else if connection.ConfigGone? && s.dirs[i].Deprovision? {
      EventKeepsLog(s, s', Finished(i));
    } else {
      SilenceKeepsLog(s, s');
    }
  }

  lemma ConnectKeepsInv(s: State, i: nat, connection: Connection)
    requires Inv(s) && Enabled(s, Connect(i, connection))
    ensures Inv(Apply(s, Connect(i, connection)))
  {
    UnlockedStepKeepsCount(s, Connect(i, connection));
    ConnectKeepsLog(s, i, connection);
  }

  lemma ChildEndKeepsInv(s: State, i: nat, ok: bool)
    requires Inv(s) && Enabled(s, ChildEnds(i, ok))
    ensures Inv(Apply(s, ChildEnds(i, ok)))
  {
    var s' := Apply(s, ChildEnds(i, ok));
    UnlockedStepKeepsCount(s, ChildEnds(i, ok));
    if ok { EventKeepsLog(s, s', Finished(i)); } else { assert s'.log == s.log; }
  }

  lemma StepKeepsInv(s: State, step: Step)
    requires Inv(s) && Enabled(s, step)
    ensures Inv(Apply(s, step))
  {
    match step
    case Acquire(i) => AcquireKeepsInv(s, i);
    case Release(i, ok) => ReleaseKeepsInv(s, i, ok);
    case Connect(i, connection) => ConnectKeepsInv(s, i, connection);
    case ChildEnds(i, ok) => ChildEndKeepsInv(s, i, ok);
  }

  lemma {:induction false} RunKeepsInv(s: State, run: seq<Step>)
    requires Inv(s) && Legal(s, run)
    ensures Inv(Exec(s, run)) && Exec(s, run).dirs == s.dirs && Exec(s, run).controller == s.controller
    decreases |run|
  {
    if run != [] {
      StepKeepsInv(s, run[0]);
      RunKeepsInv(Apply(s, run[0]), run[1..]);
    }
  }

  /** Whatever the directions and the interleaving: the driver is asked to register the remote at
      most once, exactly if the first handle to take the lock provisions, and to delete it at most
      once, exactly if all handles took it and the last of them deprovisions. */
  lemma DriverCallsExactly(s: State, run: seq<Step>)
    requires Init(s) && Legal(s, run)
    ensures
      var s' := Exec(s, run);
      && (forall k | 0 <= k < |s'.took| :: s'.took[k] < |s'.dirs|)
      && Registrations(s'.log) == (if Registers(s') then 1 else 0)
      && Deletions(s'.log) == (if Deletes(s') then 1 else 0)
  {
    RunKeepsInv(s, run);
  }

  /** A pass that only provisions, on a remote we own: one registration attempt as soon as any
      handle has been counted, over before any child begins, and no deletion. */
  lemma RegisteredOnceBeforeChildren(s: State, run: seq<Step>)
    requires Init(s) && s.controller && AllIn(s, Provision) && Legal(s, run)
    ensures
      var s' := Exec(s, run);
      && Registrations(s'.log) == (if s'.took == [] then 0 else 1)
      && Deletions(s'.log) == 0
      && forall y | 0 <= y < |s'.log| && s'.log[y].ChildBegins? :: RegisterDone(s'.log[..y])
  {
    RunKeepsInv(s, run);
  }

  /** Every handle has returned. */
  ghost predicate Ended(s: State) {
    forall i | 0 <= i < |s.pcs| :: s.pcs[i].Done?
  }

  ghost predicate AllCounted(s: State) {
    forall i: nat | i < |s.dirs| :: i in s.took
  }

  ghost predicate AllFinishedIn(s: State) {
    forall i: nat | i < |s.dirs| :: Finished(i) in s.log
  }

  lemma AllCountedIff(s: State)
    requires TookOk(s)
    ensures AllCounted(s) <==> |s.took| == |s.dirs|
  {
    if |s.took| == |s.dirs| {
      AllTook(s.took, |s.dirs|);
    } else {
      SizeOfDistinct(s.took);
      assert Members(s.took) != Below(|s.dirs|);
      assert Members(s.took) <= Below(|s.dirs|);
    }
  }

  /** When all handles of a deprovisioning pass have returned, those counted are those that finished. */
  lemma EndedCounts(s: State)
    requires CountInv(s) && AllIn(s, Deprovision) && Ended(s)
    ensures AllCounted(s) <==> AllFinishedIn(s)
  {
    forall i: nat | i < |s.dirs| ensures i in s.took <==> Finished(i) in s.log {
      assert HandleOk(s, i) && s.dirs[i] == Deprovision;
    }
  }

  /** A pass that only deprovisions, on a remote we own with at least one handle: the deletion is
      called for at most once, exactly when every handle has been counted, and so, once all handles
      have returned, exactly when each had finished its own part without error; it begins after the
      last of them has finished, and nothing is registered. */
  lemma DeletedOnceAfterAll(s: State, run: seq<Step>)
    requires Init(s) && s.controller && AllIn(s, Deprovision) && s.dirs != [] && Legal(s, run)
    ensures
      var s' := Exec(s, run);
      && Deletions(s'.log) == (if AllCounted(s') then 1 else 0)
      && (Ended(s') ==> Deletions(s'.log) == if AllFinishedIn(s') then 1 else 0)
      && Registrations(s'.log) == 0
      && DeletedLast(s'.log, |s.dirs|)
  {
    RunKeepsInv(s, run);
    var s' := Exec(s, run);
    AllCountedIff(s');
    if Ended(s') { EndedCounts(s'); }
  }

  // ---------------------------------------------------------------- is the remote there for the children?

  lemma Prepend(s: State, step: Step, run: seq<Step>)
    requires Enabled(s, step) && Legal(Apply(s, step), run)
    ensures Legal(s, [step] + run) && Exec(s, [step] + run) == Exec(Apply(s, step), run)
  {
    assert ([step] + run)[1..] == run;
  }

  lemma {:induction false} Chain(s: State, first: seq<Step>, second: seq<Step>)
    requires Legal(s, first) && Legal(Exec(s, first), second)
    ensures Legal(s, first + second) && Exec(s, first + second) == Exec(Exec(s, first), second)
    decreases |first|
  {
    if first == [] {
      assert first + second == second;
    } else {
      Chain(Apply(s, first[0]), first[1..], second);
      assert first + second == [first[0]] + (first[1..] + second);
      Prepend(s, first[0], first[1..] + second);
    }
  }

  lemma OneStep(s: State, step: Step)
    requires Enabled(s, step)
    ensures Legal(s, [step]) && Exec(s, [step]) == Apply(s, step)
  {
    Prepend(s, step, []);
    assert [step] + [] == [step];
  }

  lemma TwoSteps(s: State, a: Step, b: Step)
    requires Enabled(s, a) && Enabled(Apply(s, a), b)
    ensures Legal(s, [a, b]) && Exec(s, [a, b]) == Apply(Apply(s, a), b)
  {
    OneStep(Apply(s, a), b);
    Prepend(s, a, [b]);
    assert [a] + [b] == [a, b];
  }

  /** A handle's child has begun only if the handle is past connecting. */
  ghost predicate BegunOk(s: State, i: nat)
    requires |s.pcs| == |s.dirs|
  {
    ChildBegins(i) in s.log ==> i < |s.dirs| && (s.dirs[i].Provision? ==> s.pcs[i].InChild? || s.pcs[i].Done?)
  }

  /** A registration ends once, and a failed one ends its handle before its child has begun. */
  ghost predicate RegisterOnce(s: State)
    requires TookOk(s) && |s.pcs| == |s.dirs|
  {
    && (!Registers(s) || s.lock == Some(s.took[0]) ==> !RegisterDone(s.log))
    && !(RegisterEnds(true) in s.log && RegisterEnds(false) in s.log)
    && (forall i: nat :: BegunOk(s, i))
    && (RegisterEnds(false) in s.log ==>
          s.took != [] && s.pcs[s.took[0]] == Done(false) && ChildBegins(s.took[0]) !in s.log)
  }

  /** Whether and how registration ended reads the same. */
  lemma SameEndings(s: State, s': State)
    requires s.log <= s'.log && forall e | e in s'.log && e.RegisterEnds? :: e in s.log
    ensures RegisterDone(s'.log) <==> RegisterDone(s.log)
    ensures forall ok :: RegisterEnds(ok) in s'.log <==> RegisterEnds(ok) in s.log
  {
    forall ok ensures RegisterEnds(ok) in s'.log <==> RegisterEnds(ok) in s.log {
    }
  }

  lemma ReleaseKeepsOnce(s: State, i: nat, ok: bool)
    requires CountInv(s) && RegisterOnce(s) && Enabled(s, Release(i, ok)) && TookOk(Apply(s, Release(i, ok)))
    ensures RegisterOnce(Apply(s, Release(i, ok)))
  {
    var s' := Apply(s, Release(i, ok));
    assert s.took[|s.took| - 1] == i;
    forall j: nat ensures BegunOk(s', j) { assert BegunOk(s, j); }
    if s.pcs[i].calling && s.dirs[i].Provision? {
      assert |s.took| == 1 && s.took[0] == i && BegunOk(s, i);
      assert s'.log == s.log + [RegisterEnds(ok)] && s'.log[|s.log|] == RegisterEnds(ok);
      assert RegisterEnds(!ok) !in s.log;
    } else {
      SameEndings(s, s');
    }
  }

  lemma AcquireKeepsOnce(s: State, i: nat)
    requires CountInv(s) && RegisterOnce(s) && Enabled(s, Acquire(i)) && TookOk(Apply(s, Acquire(i)))
    ensures RegisterOnce(Apply(s, Acquire(i)))
  {
    var s' := Apply(s, Acquire(i));
    assert HandleOk(s, i) && BegunOk(s, i);
    SameEndings(s, s');
    forall j: nat ensures BegunOk(s', j) { assert BegunOk(s, j); }
    assert s.took != [] ==> s'.took[0] == s.took[0];
    if RegisterEnds(false) in s.log { assert HandleOk(s, s.took[0]); }
  }

  lemma UnlockedStepKeepsOnce(s: State, step: Step)
    requires CountInv(s) && RegisterOnce(s) && Enabled(s, step) && TookOk(Apply(s, step))
    requires step.Connect? || step.ChildEnds?
    ensures RegisterOnce(Apply(s, step))
  {
    var s', i := Apply(s, step), step.i;
    assert HandleOk(s, i) && BegunOk(s, i);
    SameEndings(s, s');
    forall j: nat ensures BegunOk(s', j) { assert BegunOk(s, j); }
    if RegisterEnds(false) in s.log { assert HandleOk(s, s.took[0]); }
  }

  lemma {:induction false} RunKeepsOnce(s: State, run: seq<Step>)
    requires Inv(s) && RegisterOnce(s) && Legal(s, run)
    ensures Inv(Exec(s, run)) && RegisterOnce(Exec(s, run))
    decreases |run|
  {
    if run != [] {
      StepKeepsInv(s, run[0]);
      match run[0] {
        case Acquire(i) => AcquireKeepsOnce(s, i);
        case Release(i, ok) => ReleaseKeepsOnce(s, i, ok);
        case _ => UnlockedStepKeepsOnce(s, run[0]);
      }
      RunKeepsOnce(Apply(s, run[0]), run[1..]);
    }
  }

  /** Every child that has begun did so on a registered remote. */
  ghost predicate RegisteredForAll(log: seq<Event>) {
    forall y | 0 <= y < |log| && log[y].ChildBegins? :: RegisterEnds(true) in log[..y]
  }

  /** In a provisioning pass on a remote we own, once some child has begun, all of them did so on a
      registered remote exactly if the registration did not fail. */
  lemma RegisteredForAllIff(s: State, run: seq<Step>)
    requires Init(s) && s.controller && AllIn(s, Provision) && Legal(s, run)
    requires exists i :: ChildBegins(i) in Exec(s, run).log
    ensures RegisteredForAll(Exec(s, run).log) <==> RegisterEnds(false) !in Exec(s, run).log
  {
    RunKeepsOnce(s, run);
    RegisteredOnceBeforeChildren(s, run);
    var log := Exec(s, run).log;
    if RegisterEnds(false) !in log {
      forall y | 0 <= y < |log| && log[y].ChildBegins? ensures RegisterEnds(true) in log[..y] {
        var ok :| RegisterEnds(ok) in log[..y];
        assert RegisterEnds(ok) in log;
      }
    } else {
      var i :| ChildBegins(i) in log;
      var y :| 0 <= y < |log| && log[y] == ChildBegins(i);
      assert RegisterEnds(true) in log[..y] ==> RegisterEnds(true) in log;
    }
  }

  /** A failed registration stops only the handle that attempted it: whenever there are two handles,
      there is a run in which the other one's child begins on a remote that is not registered. */
  lemma SiblingProceedsUnregistered(s: State) returns (run: seq<Step>)
    requires Init(s) && s.controller && AllIn(s, Provision) && |s.dirs| >= 2
    ensures Legal(s, run) && Exec(s, run).log == [RegisterBegins(0), RegisterEnds(false), ChildBegins(1)]
  {
    var s1 := Apply(s, Acquire(0));
    var s2 := Apply(s1, Release(0, false));
    var s3 := Apply(s2, Acquire(1));
    var s4 := Apply(s3, Release(1, true));
    var s5 := Apply(s4, Connect(1, Connected));
    assert s5.log == [RegisterBegins(0), RegisterEnds(false), ChildBegins(1)];
    run := [];
    Prepend(s4, Connect(1, Connected), run);
    run := [Connect(1, Connected)] + run;
    Prepend(s3, Release(1, true), run);
    run := [Release(1, true)] + run;
    Prepend(s2, Acquire(1), run);
    run := [Acquire(1)] + run;
    Prepend(s1, Release(0, false), run);
    run := [Release(0, false)] + run;
    Prepend(s, Acquire(0), run);
    run := [Acquire(0)] + run;
  }

  lemma OnlyHandleIsRegistered(s: State, run: seq<Step>)
    requires Init(s) && s.controller && AllIn(s, Provision) && |s.dirs| <= 1 && Legal(s, run)
    ensures RegisteredForAll(Exec(s, run).log)
  {
    RunKeepsOnce(s, run);
    RunKeepsInv(s, run);
    var s' := Exec(s, run);
    forall y | 0 <= y < |s'.log| && s'.log[y].ChildBegins? ensures RegisterEnds(true) in s'.log[..y] {
      var i := s'.log[y].handle;
      assert ChildBegins(i) in s'.log && BegunOk(s', i);
      assert RegisterEnds(false) !in s'.log;
      RegisteredForAllIff(s, run);
    }
  }

  /** All runs of a provisioning pass keep children off an unregistered remote exactly if the remote
      has at most one handle. */
  lemma ChildrenAlwaysRegisteredIff(s: State)
    requires Init(s) && s.controller && AllIn(s, Provision)
    ensures (forall run :: Legal(s, run) ==> RegisteredForAll(Exec(s, run).log)) <==> |s.dirs| <= 1
  {
    if |s.dirs| <= 1 {
      forall run | Legal(s, run) ensures RegisteredForAll(Exec(s, run).log) {
        OnlyHandleIsRegistered(s, run);
      }
    } else {
      var run := SiblingProceedsUnregistered(s);
      var log := Exec(s, run).log;
      assert log[2].ChildBegins? && log[..2] == [RegisterBegins(0), RegisterEnds(false)];
    }
  }

  // ---------------------------------------------------------------- does the remote outlive the children?

  /** The step by which `q` begins the deletion while the child of `p` is still running. */
  ghost predicate DeletesUnder(s: State, q: nat, p: nat) {
    && Enabled(s, Acquire(q)) && Apply(s, Acquire(q)).log == s.log + [DeleteBegins(q)]
    && p < |s.pcs| && s.pcs[p].InChild?
  }

  /** The handles other than `q` have been counted, and the child of `p` is running. */
  ghost predicate Waiting(s: State, p: nat, q: nat, from: nat)
    requires |s.pcs| == |s.dirs|
  {
    && p < |s.dirs| && q < |s.dirs| && p != q && s.dirs[p].Provision? && s.dirs[q].Deprovision?
    && s.lock.None? && s.pcs[p].InChild? && s.pcs[q].Ready?
    && (forall i: nat | i < |s.dirs| && i != q :: if i < from || i == p then i in s.took else s.pcs[i].Ready?)
  }

  /** A handle that has taken and released the lock without trouble. */
  lemma Counts(s: State, i: nat)
    requires Enabled(s, Acquire(i))
    ensures Legal(s, [Acquire(i), Release(i, true)])
    ensures
      var s' := Exec(s, [Acquire(i), Release(i, true)]);
      && s'.dirs == s.dirs && s'.controller == s.controller && |s'.pcs| == |s.pcs| && s'.lock.None?
      && s'.took == s.took + [i]
      && forall j | 0 <= j < |s.pcs| && j != i :: s'.pcs[j] == s.pcs[j]
  {
    TwoSteps(s, Acquire(i), Release(i, true));
  }

  /** Handle `from` is brought through its part and counted. */
  lemma OneMoreCounted(s: State, p: nat, q: nat, from: nat) returns (run: seq<Step>)
    requires |s.pcs| == |s.dirs| && from < |s.dirs| && Waiting(s, p, q, from)
    ensures Legal(s, run)
    ensures
      var s' := Exec(s, run);
      s'.dirs == s.dirs && s'.controller == s.controller && |s'.pcs| == |s'.dirs| && Waiting(s', p, q, from + 1)
  {
    if from == p || from == q {
      run := [];
    } else if s.dirs[from].Provision? {
      run := [Acquire(from), Release(from, true)];
      Counts(s, from);
    } else {
      var begin := [Connect(from, Connected), ChildEnds(from, true)];
      TwoSteps(s, Connect(from, Connected), ChildEnds(from, true));
      var s1 := Exec(s, begin);
      Counts(s1, from);
      Chain(s, begin, [Acquire(from), Release(from, true)]);
      run := begin + [Acquire(from), Release(from, true)];
    }
  }

  lemma {:induction false} AllOthersCounted(s: State, p: nat, q: nat, from: nat) returns (run: seq<Step>)
    requires |s.pcs| == |s.dirs| && from <= |s.dirs| && Waiting(s, p, q, from)
    ensures Legal(s, run)
    ensures
      var s' := Exec(s, run);
      s'.dirs == s.dirs && s'.controller == s.controller && |s'.pcs| == |s'.dirs| && Waiting(s', p, q, |s.dirs|)
    decreases |s.dirs| - from
  {
    run := [];
    if from < |s.dirs| {
      var first := OneMoreCounted(s, p, q, from);
      var rest := AllOthersCounted(Exec(s, first), p, q, from + 1);
      Chain(s, first, rest);
      run := first + rest;
    }
  }

  /** With everyone else counted, `q` finishes its part the ordinary way and is about to delete. */
  lemma LastOneDeletes(s: State, p: nat, q: nat)
    requires Inv(s) && s.controller && Waiting(s, p, q, |s.dirs|)
    ensures
      var run := [Connect(q, Connected), ChildEnds(q, true)];
      Legal(s, run) && DeletesUnder(Exec(s, run), q, p)
  {
    assert HandleOk(s, q);
    assert Members(s.took) == Below(|s.dirs|) - {q};
    SizeOfDistinct(s.took);
    TwoSteps(s, Connect(q, Connected), ChildEnds(q, true));
  }

  /** The child of `p` begins before anybody else has moved. */
  lemma ChildIsRunning(s: State, p: nat, q: nat) returns (run: seq<Step>)
    requires Init(s) && p < |s.dirs| && q < |s.dirs| && s.dirs[p].Provision? && s.dirs[q].Deprovision?
    ensures Legal(s, run)
    ensures
      var s' := Exec(s, run);
      s'.dirs == s.dirs && s'.controller == s.controller && |s'.pcs| == |s'.dirs| && Waiting(s', p, q, 0)
  {
    run := [Acquire(p), Release(p, true)];
    TwoSteps(s, Acquire(p), Release(p, true));
    OneStep(Exec(s, run), Connect(p, Connected));
    Chain(s, run, [Connect(p, Connected)]);
    run := run + [Connect(p, Connected)];
    assert Exec(s, run).took == [p];
  }

  /** A false predicate above one of several handles mixes the directions: in every such pass, for
      every handle that provisions and every one that deprovisions, the latter can delete the remote
      while the former's child is being provisioned on it. */
  lemma MixedPassDeletesLiveRemote(s: State, p: nat, q: nat) returns (run: seq<Step>)
    requires Init(s) && s.controller && p < |s.dirs| && q < |s.dirs| && s.dirs[p].Provision? && s.dirs[q].Deprovision?
    ensures Legal(s, run) && DeletesUnder(Exec(s, run), q, p)
  {
    var begin := ChildIsRunning(s, p, q);
    var middle := AllOthersCounted(Exec(s, begin), p, q, 0);
    Chain(s, begin, middle);
    RunKeepsInv(s, begin + middle);
    LastOneDeletes(Exec(s, begin + middle), p, q);
    Chain(s, begin + middle, [Connect(q, Connected), ChildEnds(q, true)]);
    run := begin + middle + [Connect(q, Connected), ChildEnds(q, true)];
  }

  /** A deletion under a running child takes a handle in each direction. */
  lemma LiveDeletionIsMixed(s: State, q: nat, p: nat)
    requires Inv(s) && DeletesUnder(s, q, p)
    ensures s.dirs[q].Deprovision? && s.dirs[p].Provision?
  {
    var s' := Apply(s, Acquire(q));
    assert s'.log[|s.log|] == DeleteBegins(q);
    AcquireKeepsInv(s, q);
    AllTook(s'.took, |s.dirs|);
    assert HandleOk(s', p);
  }

  /** Nobody is in a position to delete the remote under a running child. */
  ghost predicate SparesChildren(s: State) {
    forall q: nat, p: nat :: !DeletesUnder(s, q, p)
  }

  lemma UniformPassSparesChildren(s: State, run: seq<Step>)
    requires Init(s) && (AllIn(s, Provision) || AllIn(s, Deprovision)) && Legal(s, run)
    ensures SparesChildren(Exec(s, run))
  {
    RunKeepsInv(s, run);
    forall q: nat, p: nat | DeletesUnder(Exec(s, run), q, p) ensures false {
      LiveDeletionIsMixed(Exec(s, run), q, p);
    }
  }

  lemma MixedPassEndangersChildren(s: State) returns (run: seq<Step>)
    requires Init(s) && s.controller && !AllIn(s, Provision) && !AllIn(s, Deprovision)
    ensures Legal(s, run) && !SparesChildren(Exec(s, run))
  {
    var p: nat :| p < |s.dirs| && s.dirs[p] != Deprovision;
    var q: nat :| q < |s.dirs| && s.dirs[q] != Provision;
    run := MixedPassDeletesLiveRemote(s, p, q);
  }

  /** The remote outlives the children in all runs exactly if all handles go in one direction. */
  lemma RemoteOutlivesChildrenIff(s: State)
    requires Init(s) && s.controller
    ensures (forall run :: Legal(s, run) ==> SparesChildren(Exec(s, run)))
            <==> AllIn(s, Provision) || AllIn(s, Deprovision)
  {
    if AllIn(s, Provision) || AllIn(s, Deprovision) {
      forall run | Legal(s, run) ensures SparesChildren(Exec(s, run)) {
        UniformPassSparesChildren(s, run);
      }
    } else {
      var run := MixedPassEndangersChildren(s);
    }
  }
}
