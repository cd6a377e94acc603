/** The reconcile passes as code over the store, with others free to act before every call. */
module Reconciler {
  import opened Common
  import opened ProvisioningStatus
  import opened ResourceReferences
  import opened ReconcileModel
  import ReconcileRuns

  lemma {:induction false} RunThenEvent(a: World, run: seq<Event>, e: Event)
    requires Legal(a, run) && Enabled(Exec(a, run), e)
    ensures Legal(a, run + [e]) && Exec(a, run + [e]) == Apply(Exec(a, run), e)
    decreases |run|
  {
    if run == [] {
      assert run + [e] == [e] && [e][1..] == [];
      assert Legal(Apply(a, e), []) && Exec(Apply(a, e), []) == Apply(a, e);
    } else {
      RunThenEvent(Apply(a, run[0]), run[1..], e);
      assert (run + [e])[1..] == run[1..] + [e];
    }
  }

  /** How a pass ends for the work queue: done, again after the yield timeout, or with backoff. */
  datatype Result = Done | RequeueAfter | Backoff

  predicate IsOthers(e: Event) {
    e.Create? || e.Edit? || e.RequestDeletion?
  }

  /** The reconciler's own steps in a run. */
  function Own(run: seq<Event>): seq<Event> {
    if run == [] then []
    else Own(run[..|run| - 1]) + if IsOthers(run[|run| - 1]) then [] else [run[|run| - 1]]
  }

  lemma OwnAppended(run: seq<Event>, e: Event)
    ensures Own(run + [e]) == Own(run) + if IsOthers(e) then [] else [e]
  {
    assert (run + [e])[..|run|] == run;
  }

  /** Some tip of the error has this disposition. */
  ghost predicate Has(err: Option<Error>, s: Sentinel) {
    err.Some? && Carried(Tips(err.value), s)
  }

  /** The condition was written and the reply heard, or there was none to write. */
  ghost predicate Dealt(steps: seq<Event>, err: Option<Error>) {
    (Has(err, Canceled) && !Has(err, ErrYield)) || UpdateStatus(Landed) in steps
  }

  /** What a pass that ended its provisioning with `err` reports: once the condition is dealt with, it is
      done without an error or with one that retrying does not help, and any other error is retried. */
  ghost function NormalResult(steps: seq<Event>, err: Option<Error>): Result {
    if !Dealt(steps, err) then RequeueAfter
    else if err.None? || Has(err, ErrTerminal) || Has(err, ErrUserActionRequired) then Done
    else RequeueAfter
  }

  /** What a delete pass that ended its deprovisioning with `err` reports: a hard error backs off, even
      a terminal one, and only a finalizer seen to be removed is the end. */
  ghost function DeleteResult(steps: seq<Event>, err: Option<Error>): Result {
    if !Dealt(steps, err) || Has(err, ErrYield) then RequeueAfter
    else if err.Some? then Backoff
    else if RemoveFinalizer(Landed) in steps then Done
    else RequeueAfter
  }

  /** The conditions committed so far in the object's life. */
  function Committed(w: World, o: Object): seq<Condition> {
    LifeOf(w, o.uid).committed
  }

  /** The conditions a pass commits: the one its outcome calls for, if the write landed. */
  ghost function Commits(steps: seq<Event>, err: Option<Error>, deprovision: bool): seq<Condition> {
    var c := Derived(err, deprovision);
    if c.Some? && (UpdateStatus(Landed) in steps || UpdateStatus(LandedUnheard) in steps) then [c.value] else []
  }

  /** Nothing is done for the object and nothing more is to be done. */
  ghost predicate LeftAlone(steps: seq<Event>, r: Result) {
    steps == [Get] && r == Done
  }

  /** Somebody else's finalizer is on the object. */
  ghost predicate Blocked(o: Object) {
    exists f :: f in o.finalizers && f != FINALIZER
  }

  ghost predicate DeleteReport(o: Object, steps: seq<Event>, err: Option<Error>, r: Result) {
    && (o.finalizers == [] ==> LeftAlone(steps, r))
    && (Blocked(o) ==>
          r == RequeueAfter && err == Some(Plain(ErrYield)) && forall e | e in steps :: !e.DeprovisionReturns?)
    && (o.finalizers != [] && !Blocked(o) ==>
          |steps| > 1 && steps[1] == DeprovisionReturns(err) && r == DeleteResult(steps, err))
  }

  /** Without the finalizer the provisioner is not invoked; with it, its error decides. */
  ghost predicate NormalReport(adding: bool, steps: seq<Event>, err: Option<Error>, r: Result) {
    if adding && |steps| == 1 then steps[0].AddFinalizer? && !steps[0].reply.Landed? && r == Backoff
    else
      var first := if adding then 1 else 0;
      && |steps| > first && (adding ==> steps[0] == AddFinalizer(Landed))
      && steps[first] == ProvisionReturns(err) && r == NormalResult(steps, err)
  }

  /** What the work queue is told after a pass that read `seen`. */
  ghost predicate PassReport(seen: Option<Object>, steps: seq<Event>, err: Option<Error>, r: Result) {
    match seen
    case None => LeftAlone(steps, r)
    case Some(o) =>
      if o.deleting then DeleteReport(o, steps, err, r)
      else if o.paused then LeftAlone(steps, r)
      else steps != [] && steps[0] == Get && NormalReport(FINALIZER !in o.finalizers, steps[1..], err, r)
  }

  lemma HasIs(err: Option<Error>, s: Sentinel)
    ensures Has(err, s) <==> err.Some? && Is(err.value, s)
  {
    if err.Some? { IsFindsAny(err.value, s); }
  }

  /** Waiting for others is never the end of it. */
  lemma YieldIsRetried(steps: seq<Event>)
    ensures DeleteResult(steps, Some(Plain(ErrYield))) == RequeueAfter
  {
    HasIs(Some(Plain(ErrYield)), ErrYield);
  }

  lemma BlockedIff(o: Object)
    ensures Blocked(o) <==> GetResourceReferences(o.finalizers) != [] || DELETE_DEPENDENTS in o.finalizers
  {
    var references := GetResourceReferences(o.finalizers);
    if references != [] { assert references[0] in references; }
    assert DELETE_DEPENDENTS != FINALIZER;
  }

  /** How a pass that read `seen` goes on. */
  ghost predicate TakesUp(pass: Pass, seen: Option<Object>) {
    match seen
    case None => pass.Idle?
    case Some(o) =>
      if o.deleting then
        if o.finalizers == [] then pass.Idle?
        else if Blocked(o) then pass == Decided(o, Some(Plain(ErrYield)), true)
        else pass == InDeprovision(o)
      else if o.paused then pass.Idle?
      else if FINALIZER in o.finalizers then pass == InProvision(o)
      else pass == AddingFinalizer(o)
  }

  /** An event other than the writes of condition and finalizer does not bear on the results. */
  lemma AfterFirst(first: Event, later: seq<Event>, err: Option<Error>, deprovision: bool)
    requires !first.UpdateStatus? && !first.RemoveFinalizer?
    ensures
      var steps := [first] + later;
      && (forall e :: e in steps <==> e == first || e in later)
      && Commits(steps, err, deprovision) == Commits(later, err, deprovision)
      && NormalResult(steps, err) == NormalResult(later, err)
      && DeleteResult(steps, err) == DeleteResult(later, err)
  {
    assert forall e :: e in [first] + later <==> e == first || e in later;
  }

  class Manager {
    var w: World
    /** Where the object came from: the world it started in, everything that happened since, and what
        of that the reconciler did itself. */
    ghost var start: World
    ghost var run: seq<Event>
    ghost var own: seq<Event>

    ghost predicate Valid()
      reads this
    {
      Legal(start, run) && Exec(start, run) == w && own == Own(run)
    }

    constructor ()
      ensures Valid() && Init(w) && start == w && run == []
    {
      w, start := World(None, 0, 0, Idle, {}, map[]), World(None, 0, 0, Idle, {}, map[]);
      run, own := [], [];
    }

    /** One atomic step of the model. */
    method Do(e: Event)
      requires Valid() && Enabled(w, e)
      modifies this
      ensures Valid() && w == Apply(old(w), e) && start == old(start) && run == old(run) + [e]
      ensures own == old(own) + if IsOthers(e) then [] else [e]
    {
      RunThenEvent(start, run, e);
      OwnAppended(run, e);
      run, own := run + [e], own + if IsOthers(e) then [] else [e];
      w := Apply(w, e);
    }

    /** Any number of steps by anybody else. */
    method Interference()
      requires Valid()
      modifies this
      ensures Valid() && start == old(start) && old(run) <= run && own == old(own)
      ensures w.pass == old(w).pass && w.lives == old(w).lives
    {
      var n: nat := *;
      while n > 0
        invariant Valid() && start == old(start) && old(run) <= run && own == old(own)
        invariant w.pass == old(w).pass && w.lives == old(w).lives
      {
        var e: Event := *;
        if IsOthers(e) && Enabled(w, e) { Do(e); }
        n := n - 1;
      }
    }

    /** The store's answer to an update of the pass's copy, after interference. */
    method Answer() returns (reply: Reply)
      requires Valid() && !w.pass.Idle?
      modifies this
      ensures Valid() && start == old(start) && old(run) <= run && own == old(own)
      ensures w.pass == old(w).pass && w.lives == old(w).lives
      ensures !reply.Refused? ==> Unchanged(w, w.pass.copy)
    {
      Interference();
      reply := *;
      if !Unchanged(w, w.pass.copy) { reply := Refused; }
    }

    /** The condition is written on top of the copy the pass holds; what lands is committed. */
    method UpdateCondition() returns (reply: Reply)
      requires Valid() && w.pass.Decided?
      modifies this
      ensures Valid() && start == old(start) && old(run) <= run && own == old(own) + [UpdateStatus(reply)]
      ensures var Decided(copy, err, deprovision) := old(w).pass;
              var c := Derived(err, deprovision);
              && Committed(w, copy) == Committed(old(w), copy) + (if c.Some? && !reply.Refused? then [c.value] else [])
              && (c.None? ==> w.pass == if deprovision && err.None? then Finalizing(copy) else Idle)
              && (c.Some? && !reply.Landed? ==> w.pass.Idle?)
              && (c.Some? && reply.Landed? ==>
                    && w.pass.Logging? && w.pass.copy.uid == copy.uid
                    && w.pass.err == err && w.pass.deprovision == deprovision)
    {
      reply := Answer();
      Do(UpdateStatus(reply));
    }

    /** A persisted change is logged, and the pass goes on. */
    method LogTransition()
      requires Valid() && w.pass.Logging?
      modifies this
      ensures Valid() && start == old(start) && old(run) <= run && own == old(own) + [EmitLog]
      ensures var before := old(w).pass;
              && Committed(w, before.copy) == Committed(old(w), before.copy)
              && (w.pass.Idle? || w.pass.Finalizing?)
              && (w.pass.Finalizing? <==> before.deprovision && before.err.None?)
    {
      Interference();
      Do(EmitLog);
    }

    /** handleReconcileCondition: derive, write, and log a persisted change. */
    method HandleReconcileCondition() returns (ok: bool, ghost steps: seq<Event>)
      requires Valid() && w.pass.Decided?
      modifies this
      ensures Valid() && start == old(start) && old(run) <= run && own == old(own) + steps
      ensures forall e | e in steps :: e.UpdateStatus? || e.EmitLog?
      ensures ok <==> Dealt(steps, old(w).pass.err)
      ensures !ok ==> w.pass.Idle?
      ensures ok ==> w.pass.Idle? || w.pass.Finalizing?
      ensures ok ==> (w.pass.Finalizing? <==> old(w).pass.deprovision && old(w).pass.err.None?)
      ensures var before := old(w).pass;
              Committed(w, before.copy) ==
              Committed(old(w), before.copy) + Commits(steps, before.err, before.deprovision)
    {
      var c := DeriveCondition(w.pass.err, w.pass.deprovision);
      HasIs(w.pass.err, Canceled);
      HasIs(w.pass.err, ErrYield);
      ghost var before := own;
      var reply := UpdateCondition();
      steps := [UpdateStatus(reply)];
      if c.None? { return true, steps; }
      if !reply.Landed? { return false, steps; }
      LogTransition();
      Regrouped(before, steps, [EmitLog]);
      assert UpdateStatus(Landed) in steps + [EmitLog];
      return true, steps + [EmitLog];
    }

    /** Removing our finalizer, the last one, is what makes the object vanish. */
    method FinalizeObject() returns (r: Result, ghost reply: Reply)
      requires Valid() && ReconcileRuns.Inv(start) && w.pass.Finalizing?
      modifies this
      ensures Valid() && start == old(start) && old(run) <= run && own == old(own) + [RemoveFinalizer(reply)]
      ensures w.pass.Idle? && w.lives == old(w).lives
      ensures r == if reply.Landed? then Done else RequeueAfter
      ensures r == Done ==> w.store.None?
    {
      var ours := FINALIZER in w.pass.copy.finalizers;
      var answer := Answer();
      reply := answer;
      ReconcileRuns.RunKeepsInv(start, run);
      assert ours by { assert w.pass.copy.finalizers[0] in w.pass.copy.finalizers; }
      if answer.Landed? { ReconcileRuns.RemovalVanishes(w, answer); }
      Do(RemoveFinalizer(answer));
      if ours && !answer.Landed? { return RequeueAfter, reply; }
      return Done, reply;
    }

    /** The condition first, then the error, then the finalizer. */
    method ConcludeDelete() returns (r: Result, ghost steps: seq<Event>)
      requires Valid() && ReconcileRuns.Inv(start) && w.pass.Decided? && w.pass.deprovision
      modifies this
      ensures Valid() && start == old(start) && old(run) <= run && own == old(own) + steps && w.pass.Idle?
      ensures r == DeleteResult(steps, old(w).pass.err)
      ensures r == Done ==> w.store.None?
      ensures forall e | e in steps :: !e.DeprovisionReturns?
      ensures var before := old(w).pass;
              Committed(w, before.copy) == Committed(old(w), before.copy) + Commits(steps, before.err, true)
    {
      ghost var before := own;
      var perr := w.pass.err;
      HasIs(perr, ErrYield);
      var ok;
      ok, steps := HandleReconcileCondition();
      if !ok { return RequeueAfter, steps; }
      if perr.Some? {
        if !Is(perr.value, ErrYield) { return Backoff, steps; }
        return RequeueAfter, steps;
      }
      ghost var written, reply := steps, Refused;
      r, reply := FinalizeObject();
      Regrouped(before, written, [RemoveFinalizer(reply)]);
      steps := written + [RemoveFinalizer(reply)];
      assert forall e :: e in steps <==> e in written || e == RemoveFinalizer(reply);
    }

    /** What is reported follows from the deprovisioner's error and the store's replies. */
    method ReconcileDelete() returns (r: Result, ghost err: Option<Error>, ghost steps: seq<Event>)
      requires Valid() && ReconcileRuns.Inv(start)
      requires w.pass.InDeprovision? || (w.pass.Decided? && w.pass.deprovision && w.pass.err.Some?)
      modifies this
      ensures Valid() && start == old(start) && old(run) <= run && own == old(own) + steps && w.pass.Idle?
      ensures if old(w).pass.InDeprovision? then steps != [] && steps[0] == DeprovisionReturns(err)
              else err == old(w).pass.err && forall e | e in steps :: !e.DeprovisionReturns?
      ensures r == DeleteResult(steps, err)
      ensures r == Done ==> w.store.None?
      ensures var before := old(w).pass;
              Committed(w, before.copy) == Committed(old(w), before.copy) + Commits(steps, err, true)
    {
      if w.pass.Decided? {
        err := w.pass.err;
        r, steps := ConcludeDelete();
      } else {
        ghost var before := own;
        var outcome: Option<Error> := *;
        Interference();
        Do(DeprovisionReturns(outcome));
        err := outcome;
        r, steps := ConcludeDelete();
        AfterFirst(DeprovisionReturns(err), steps, err, true);
        Regrouped(before, [DeprovisionReturns(err)], steps);
        steps := [DeprovisionReturns(err)] + steps;
      }
    }

    /** Provision, deal with the condition, and report accordingly. */
    method ProvisionObject() returns (r: Result, ghost err: Option<Error>, ghost steps: seq<Event>)
      requires Valid() && w.pass.InProvision?
      modifies this
      ensures Valid() && start == old(start) && old(run) <= run && own == old(own) + steps && w.pass.Idle?
      ensures steps != [] && steps[0] == ProvisionReturns(err)
      ensures forall e | e in steps && e.ProvisionReturns? :: e == ProvisionReturns(err)
      ensures r == NormalResult(steps, err)
      ensures var before := old(w).pass;
              Committed(w, before.copy) == Committed(old(w), before.copy) + Commits(steps, err, false)
    {
      var outcome: Option<Error> := *;
      err := outcome;
      ghost var before := own;
      Interference();
      Do(ProvisionReturns(outcome));
      HasIs(outcome, ErrTerminal);
      HasIs(outcome, ErrUserActionRequired);
      var ok;
      ghost var written;
      ok, written := HandleReconcileCondition();
      AfterFirst(ProvisionReturns(outcome), written, err, false);
      Regrouped(before, [ProvisionReturns(outcome)], written);
      steps := [ProvisionReturns(outcome)] + written;
      if !ok { return RequeueAfter, err, steps; }
      if outcome.Some? {
        if IsTerminal(outcome.value) { return Done, err, steps; }
        return RequeueAfter, err, steps;
      }
      return Done, err, steps;
    }

    /** The finalizer is in place before anything is provisioned, and seen to be. */
    method EnsureFinalizer() returns (reply: Reply)
      requires Valid() && w.pass.AddingFinalizer?
      modifies this
      ensures Valid() && start == old(start) && old(run) <= run && own == old(own) + [AddFinalizer(reply)]
      ensures w.lives == old(w).lives
      ensures if reply.Landed? then w.pass.InProvision? && w.pass.copy.uid == old(w).pass.copy.uid else w.pass.Idle?
    {
      reply := Answer();
      Do(AddFinalizer(reply));
    }

    /** What is reported follows from the provisioner's error and the store's replies; without the
        finalizer in place the provisioner is not invoked at all. */
    method ReconcileNormal() returns (r: Result, ghost err: Option<Error>, ghost steps: seq<Event>)
      requires Valid() && (w.pass.AddingFinalizer? || w.pass.InProvision?)
      modifies this
      ensures Valid() && start == old(start) && old(run) <= run && own == old(own) + steps && w.pass.Idle?
      ensures NormalReport(old(w).pass.AddingFinalizer?, steps, err, r)
      ensures forall e | e in steps && e.ProvisionReturns? :: e == ProvisionReturns(err)
      ensures var before := old(w).pass;
              Committed(w, before.copy) == Committed(old(w), before.copy) + Commits(steps, err, false)
    {
      if w.pass.AddingFinalizer? {
        ghost var before := own;
        var reply := EnsureFinalizer();
        err, steps := None, [AddFinalizer(reply)];
        if !reply.Landed? { return Backoff, err, steps; }
        r, err, steps := ProvisionObject();
        AfterFirst(AddFinalizer(Landed), steps, err, false);
        Regrouped(before, [AddFinalizer(Landed)], steps);
        steps := [AddFinalizer(Landed)] + steps;
      } else {
        r, err, steps := ProvisionObject();
      }
    }

    /** The object as the `at`-th event of the run, a read, found it. */
    ghost predicate ReadAt(at: nat, seen: Option<Object>)
      reads this
    {
      at < |run| && run[at] == Get && Legal(start, run[..at]) && Exec(start, run[..at]).store == seen
    }

    /** The read decides what the pass is about. */
    method Read()
      requires Valid() && w.pass.Idle?
      modifies this
      ensures Valid() && start == old(start) && run == old(run) + [Get] && own == old(own) + [Get]
      ensures w.lives == old(w).lives && TakesUp(w.pass, old(w).store)
    {
      if w.store.Some? { BlockedIff(w.store.value); }
      Do(Get);
    }

    /** The rest of a pass that has read `seen`. */
    method Proceed(ghost seen: Option<Object>) returns (r: Result, ghost err: Option<Error>, ghost steps: seq<Event>)
      requires Valid() && ReconcileRuns.Inv(start) && TakesUp(w.pass, seen)
      modifies this
      ensures Valid() && start == old(start) && old(run) <= run && own == old(own) + steps && w.pass.Idle?
      ensures PassReport(seen, [Get] + steps, err, r)
      ensures seen.Some? ==>
                var all := [Get] + steps;
                Committed(w, seen.value) == Committed(old(w), seen.value) + Commits(all, err, seen.value.deleting)
    {
      r, err, steps := Done, None, [];
      if w.pass.InDeprovision? || w.pass.Decided? {
        r, err, steps := ReconcileDelete();
      } else if !w.pass.Idle? {
        r, err, steps := ReconcileNormal();
      }
      assert ([Get] + steps)[1..] == steps;
      YieldIsRetried(steps);
      AfterFirst(Get, steps, err, true);
      AfterFirst(Get, steps, err, false);
    }

    /** Between passes nothing that may own resources is gone. */
    lemma NoOrphans()
      requires Valid() && ReconcileRuns.Inv(start)
      ensures ReconcileRuns.Inv(w) && forall uid | uid in w.exposed :: w.store.Some? && w.store.value.uid == uid
    {
      ReconcileRuns.RunKeepsInv(start, run);
    }

    /** A read at the end of a run stays where it is as the run goes on. */
    lemma StillReadAt(before: seq<Event>, seen: Option<Object>)
      requires before + [Get] <= run && Legal(start, before) && Exec(start, before).store == seen
      ensures ReadAt(|before|, seen)
    {
      assert run[..|before|] == before;
      assert run[|before|] == (before + [Get])[|before|];
    }

    /** A whole pass, with others free to act before every call, continues the run of the model; what is
        reported and committed follows from what it read, and in the end nothing that may own resources is gone. */
    method Reconcile()
      returns (r: Result, ghost at: nat, ghost seen: Option<Object>, ghost err: Option<Error>, ghost steps: seq<Event>)
      requires Valid() && ReconcileRuns.Inv(start) && w.pass.Idle?
      modifies this
      ensures Valid() && start == old(start) && old(run) <= run && own == old(own) + steps && w.pass.Idle?
      ensures steps == [] ==> r == Backoff
      ensures steps != [] ==> |old(run)| <= at && ReadAt(at, seen) && PassReport(seen, steps, err, r)
      ensures steps != [] && seen.Some? ==>
                Committed(w, seen.value) == Committed(old(w), seen.value) + Commits(steps, err, seen.value.deleting)
      ensures ReconcileRuns.Inv(w)
      ensures forall uid | uid in w.exposed :: w.store.Some? && w.store.value.uid == uid
    {
      at, seen, err, steps := 0, None, None, [];
      var readable: bool := *;
      if !readable {
        NoOrphans();
        return Backoff, at, seen, err, steps;
      }
      Interference();
      at, seen := |run|, w.store;
      ghost var before, did := run, own;
      Read();
      r, err, steps := Proceed(seen);
      Regrouped(did, [Get], steps);
      steps := [Get] + steps;
      StillReadAt(before, seen);
      NoOrphans();
    }
  }
}
