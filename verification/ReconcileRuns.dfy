/** What every run of the reconciler keeps, whatever others do in between. */
module ReconcileRuns {
  import opened Common
  import opened ProvisioningStatus
  import opened ResourceReferences
  import opened ReconcileModel

  // ---------------------------------------------------------------- store and copies

  ghost predicate Versioned(w: World) {
    w.store.Some? ==> w.store.value.version <= w.clock && w.store.value.uid < w.uids
  }

  /** A copy whose version is still current is the stored object. */
  ghost predicate CopyCoherent(w: World) {
    !w.pass.Idle? ==>
      && w.pass.copy.version <= w.clock && w.pass.copy.uid < w.uids
      && (Unchanged(w, w.pass.copy) ==> w.store.value == w.pass.copy)
  }

  ghost predicate OnlyOurs(o: Object) {
    o.deleting && o.finalizers != [] && forall f | f in o.finalizers :: f == FINALIZER
  }

  /** The pass is past a nil Deprovision and heading for finalizer removal. */
  predicate Draining(p: Pass) {
    match p
    case Decided(_, err, deprovision) => deprovision && err.None?
    case Logging(_, err, deprovision, _) => deprovision && err.None?
    case Finalizing(_) => true
    case _ => false
  }

  ghost predicate DrainedFirst(w: World) {
    && (Draining(w.pass) ==> w.pass.copy.uid !in w.exposed && OnlyOurs(w.pass.copy))
    && (w.pass.InDeprovision? ==> OnlyOurs(w.pass.copy))
    && (w.pass.AddingFinalizer? ==> !w.pass.copy.deleting)
    && (w.pass.InProvision? ==> w.pass.copy.uid in w.exposed)
  }

  /** No orphans: an object that may own resources is in the store, under our finalizer. */
  ghost predicate NoOrphans(w: World) {
    forall uid | uid in w.exposed ::
      w.store.Some? && w.store.value.uid == uid && FINALIZER in w.store.value.finalizers
  }

  // ---------------------------------------------------------------- the log

  /** A sequence without its consecutive repetitions. */
  function Dedup(s: seq<Condition>): seq<Condition> {
    if |s| <= 1 then s
    else if s[|s| - 1] == s[|s| - 2] then Dedup(s[..|s| - 1])
    else Dedup(s[..|s| - 1]) + [s[|s| - 1]]
  }

  function Last(s: seq<Condition>): Option<Condition> {
    if s == [] then None else Some(s[|s| - 1])
  }

  lemma DedupAppended(s: seq<Condition>, c: Condition)
    ensures Dedup(s + [c]) == if Last(s) == Some(c) then Dedup(s) else Dedup(s) + [c]
  {
    assert (s + [c])[..|s|] == s;
  }

  /** The transition committed for `uid` whose log line is still to be written. */
  function Owed(w: World, uid: nat): seq<Condition> {
    if w.pass.Logging? && w.pass.copy.uid == uid && w.pass.transition.Some? then [w.pass.transition.value] else []
  }

  /** Logged, owed and lost transitions account for the committed history without stutters. */
  ghost predicate Accounted(w: World, uid: nat) {
    var life, owed := LifeOf(w, uid), Owed(w, uid);
    && |life.logged| + |owed| + life.lost == |Dedup(life.committed)|
    && (life.lost == 0 ==> life.logged + owed == Dedup(life.committed))
  }

  ghost predicate LogAccounted(w: World) {
    && (forall uid: nat :: Accounted(w, uid))
    && (w.store.Some? ==> w.store.value.condition == Last(LifeOf(w, w.store.value.uid).committed))
    && (forall uid | uid in w.lives :: uid < w.uids)
  }

  ghost predicate Lifecycle(w: World) {
    Versioned(w) && CopyCoherent(w) && DrainedFirst(w) && NoOrphans(w)
  }

  ghost predicate Inv(w: World) {
    Lifecycle(w) && LogAccounted(w)
  }

  // ---------------------------------------------------------------- one event

  lemma NoReferenceMeansOnlyOurs(finalizers: seq<string>)
    requires GetResourceReferences(finalizers) == [] && DELETE_DEPENDENTS !in finalizers
    ensures forall f | f in finalizers :: f == FINALIZER
  {
    forall f | f in finalizers ensures f == FINALIZER {
      assert f !in GetResourceReferences(finalizers);
    }
  }

  lemma GetKeepsLifecycle(w: World)
    requires Lifecycle(w) && w.pass.Idle?
    ensures Lifecycle(Apply(w, Get))
  {
    if w.store.Some? {
      var fs := w.store.value.finalizers;
      if GetResourceReferences(fs) == [] && DELETE_DEPENDENTS !in fs { NoReferenceMeansOnlyOurs(fs); }
    }
  }

  lemma OthersKeepLifecycle(w: World, e: Event)
    requires Lifecycle(w) && Enabled(w, e) && (e.Create? || e.Edit? || e.RequestDeletion?)
    ensures Lifecycle(Apply(w, e))
  {
  }

  lemma StatusUpdateKeepsLifecycle(w: World, reply: Reply)
    requires Lifecycle(w) && Enabled(w, UpdateStatus(reply))
    ensures Lifecycle(Apply(w, UpdateStatus(reply)))
  {
  }

  lemma EventKeepsLifecycle(w: World, e: Event)
    requires Lifecycle(w) && Enabled(w, e)
    ensures Lifecycle(Apply(w, e))
  {
    match e
    case Get => GetKeepsLifecycle(w);
    case UpdateStatus(reply) => StatusUpdateKeepsLifecycle(w, reply);
    case Create(_, _) => OthersKeepLifecycle(w, e);
    case Edit(_, _) => OthersKeepLifecycle(w, e);
    case RequestDeletion => OthersKeepLifecycle(w, e);
    case _ =>
  }

  lemma LogUntouched(w: World, w': World)
    requires LogAccounted(w) && w'.lives == w.lives && !w.pass.Logging? && !w'.pass.Logging?
    requires w'.uids >= w.uids
    requires w'.store.Some? ==>
               || (w.store.Some? && w'.store.value.uid == w.store.value.uid
                   && w'.store.value.condition == w.store.value.condition)
               || (w'.store.value.uid >= w.uids && w'.store.value.condition == None)
    ensures LogAccounted(w')
  {
    forall uid: nat ensures Accounted(w', uid) { assert Accounted(w, uid); }
  }

  /** A committed condition adds a transition exactly when it differs from the one before. */
  lemma CommitAccounts(life: Life, c: Condition, life': Life, owed: seq<Condition>)
    requires |life.logged| + life.lost == |Dedup(life.committed)|
    requires life.lost == 0 ==> life.logged == Dedup(life.committed)
    requires life'.committed == life.committed + [c] && life'.logged == life.logged
    requires if Last(life.committed) == Some(c) then life'.lost == life.lost && owed == []
             else (life'.lost == life.lost && owed == [c]) || (life'.lost == life.lost + 1 && owed == [])
    ensures |life'.logged| + |owed| + life'.lost == |Dedup(life'.committed)|
    ensures life'.lost == 0 ==> life'.logged + owed == Dedup(life'.committed)
  {
    DedupAppended(life.committed, c);
  }

  lemma OtherLives(w: World, w': World, uid: nat)
    requires LogAccounted(w) && Accounted(w', uid)
    requires w.pass.Logging? ==> w.pass.copy.uid == uid
    requires w'.pass.Logging? ==> w'.pass.copy.uid == uid
    requires w'.lives == w.lives[uid := LifeOf(w', uid)] || w'.lives == w.lives
    ensures forall u: nat :: Accounted(w', u)
  {
    forall u: nat ensures Accounted(w', u) {
      assert Accounted(w, u);
      if u != uid { assert LifeOf(w', u) == LifeOf(w, u); }
    }
  }

  /** The condition `c` of `copy` has landed, whether its log line is owed, lost or not due. */
  lemma LandedConditionKeepsLog(w: World, copy: Object, c: Condition, w': World)
    requires LogAccounted(w) && w.store == Some(copy) && copy.uid < w.uids && !w.pass.Logging? && w'.uids == w.uids
    requires w'.lives == w.lives[copy.uid := LifeOf(w', copy.uid)]
    requires w'.pass.Logging? ==> w'.pass.copy.uid == copy.uid
    requires w'.store.Some? ==> w'.store.value.uid == copy.uid && w'.store.value.condition == Some(c)
    requires
      var life, life', owed := LifeOf(w, copy.uid), LifeOf(w', copy.uid), Owed(w', copy.uid);
      && life'.committed == life.committed + [c] && life'.logged == life.logged
      && if copy.condition == Some(c) then life'.lost == life.lost && owed == []
         else (life'.lost == life.lost && owed == [c]) || (life'.lost == life.lost + 1 && owed == [])
    ensures LogAccounted(w')
  {
    assert Accounted(w, copy.uid);
    CommitAccounts(LifeOf(w, copy.uid), c, LifeOf(w', copy.uid), Owed(w', copy.uid));
    OtherLives(w, w', copy.uid);
  }

  lemma StatusUpdateKeepsLog(w: World, reply: Reply)
    requires Inv(w) && Enabled(w, UpdateStatus(reply))
    ensures LogAccounted(Apply(w, UpdateStatus(reply)))
  {
    var w' := Apply(w, UpdateStatus(reply));
    var Decided(copy, err, deprovision) := w.pass;
    var c := Derived(err, deprovision);
    if c.None? || reply.Refused? {
      LogUntouched(w, w');
    } else {
      LandedConditionKeepsLog(w, copy, c.value, w');
    }
  }

  lemma EndOfLoggingKeepsLog(w: World, e: Event)
    requires Inv(w) && Enabled(w, e) && w.pass.Logging? && (e.EmitLog? || e.Crash?)
    ensures LogAccounted(Apply(w, e))
  {
    var w' := Apply(w, e);
    assert Accounted(w, w.pass.copy.uid);
    OtherLives(w, w', w.pass.copy.uid);
  }

  lemma OthersKeepLog(w: World, e: Event)
    requires Inv(w) && Enabled(w, e) && (e.Create? || e.Edit? || e.RequestDeletion?)
    ensures LogAccounted(Apply(w, e))
  {
    var w' := Apply(w, e);
    forall uid: nat ensures Accounted(w', uid) { assert Accounted(w, uid); }
  }

  lemma EventKeepsLog(w: World, e: Event)
    requires Inv(w) && Enabled(w, e)
    ensures LogAccounted(Apply(w, e))
  {
    match e
    case UpdateStatus(reply) => StatusUpdateKeepsLog(w, reply);
    case EmitLog => EndOfLoggingKeepsLog(w, e);
    case Crash => if w.pass.Logging? { EndOfLoggingKeepsLog(w, e); } else { LogUntouched(w, Apply(w, e)); }
    case Create(_, _) => OthersKeepLog(w, e);
    case Edit(_, _) => OthersKeepLog(w, e);
    case RequestDeletion => OthersKeepLog(w, e);
    case _ => LogUntouched(w, Apply(w, e));
  }

  lemma EventKeepsInv(w: World, e: Event)
    requires Inv(w) && Enabled(w, e)
    ensures Inv(Apply(w, e))
  {
    EventKeepsLifecycle(w, e);
    EventKeepsLog(w, e);
  }

  // ---------------------------------------------------------------- whole runs

  lemma {:induction false} RunKeepsInv(w: World, run: seq<Event>)
    requires Inv(w) && Legal(w, run)
    ensures Inv(Exec(w, run))
    decreases |run|
  {
    if run != [] {
      EventKeepsInv(w, run[0]);
      RunKeepsInv(Apply(w, run[0]), run[1..]);
    }
  }

  /** Across conflicts, lost replies, yields, cancellations and crashes: an object on which
      Provision was invoked stays in the store until a Deprovision has returned nil for it. */
  lemma NoOrphanedResources(w: World, run: seq<Event>, uid: nat)
    requires Init(w) && Legal(w, run) && uid in Exec(w, run).exposed
    ensures
      var store := Exec(w, run).store;
      store.Some? && store.value.uid == uid && FINALIZER in store.value.finalizers
  {
    RunKeepsInv(w, run);
  }

  lemma NoMemberMeansEmpty(s: seq<string>)
    ensures (forall x :: x !in s) ==> s == []
  {
    if s != [] { assert s[0] in s; }
  }

  lemma RemovalVanishes(w: World, reply: Reply)
    requires Inv(w) && Enabled(w, RemoveFinalizer(reply)) && !reply.Refused?
    ensures w.store.Some? && GetResourceReferences(w.store.value.finalizers) == []
    ensures Apply(w, RemoveFinalizer(reply)).store.None?
  {
    var fs := w.store.value.finalizers;
    assert fs == w.pass.copy.finalizers && fs[0] in fs;
    NoMemberMeansEmpty(GetResourceReferences(fs));
    NoMemberMeansEmpty(Without(fs, FINALIZER));
  }

  /** A finalizer removal that lands finds no reference and no dependents finalizer on the stored
      object at that instant, nothing still provisioned, and makes the object vanish. */
  lemma ReferencesBlockDeletion(w: World, run: seq<Event>, reply: Reply)
    requires Init(w) && Legal(w, run)
    requires
      var w' := Exec(w, run);
      Enabled(w', RemoveFinalizer(reply)) && !reply.Refused?
    ensures
      var w' := Exec(w, run);
      && w'.store.Some? && w'.store.value.deleting
      && GetResourceReferences(w'.store.value.finalizers) == []
      && DELETE_DEPENDENTS !in w'.store.value.finalizers
      && w'.store.value.uid !in w'.exposed
      && Apply(w', RemoveFinalizer(reply)).store.None?
  {
    RunKeepsInv(w, run);
    RemovalVanishes(Exec(w, run), reply);
  }

  /** The event loses a transition of `uid`: it commits a changed condition and the reply is lost, or
      the reconciler crashes with such a change committed and not yet logged. */
  predicate Loses(w: World, e: Event, uid: nat)
    requires Enabled(w, e)
  {
    match e
    case Crash => w.pass.Logging? && w.pass.transition.Some? && w.pass.copy.uid == uid
    case UpdateStatus(reply) =>
      && reply.LandedUnheard? && w.pass.copy.uid == uid
      && var c := Derived(w.pass.err, w.pass.deprovision); c.Some? && c != w.pass.copy.condition
    case _ => false
  }

  function Losses(w: World, run: seq<Event>, uid: nat): nat
    requires Legal(w, run)
    decreases |run|
  {
    if run == [] then 0
    else (if Loses(w, run[0], uid) then 1 else 0) + Losses(Apply(w, run[0]), run[1..], uid)
  }

  lemma EventCountsLoss(w: World, e: Event, uid: nat)
    requires Enabled(w, e)
    ensures LifeOf(Apply(w, e), uid).lost == LifeOf(w, uid).lost + if Loses(w, e, uid) then 1 else 0
  {
  }

  lemma {:induction false} LostIsLosses(w: World, run: seq<Event>, uid: nat)
    requires Legal(w, run)
    ensures LifeOf(Exec(w, run), uid).lost == LifeOf(w, uid).lost + Losses(w, run, uid)
    decreases |run|
  {
    if run != [] {
      EventCountsLoss(w, run[0], uid);
      LostIsLosses(Apply(w, run[0]), run[1..], uid);
    }
  }

  lemma {:induction false} QuietRunLosesNothing(w: World, run: seq<Event>, uid: nat)
    requires Legal(w, run) && Crash !in run && UpdateStatus(LandedUnheard) !in run
    ensures Losses(w, run, uid) == 0
    decreases |run|
  {
    if run != [] { QuietRunLosesNothing(Apply(w, run[0]), run[1..], uid); }
  }

  lemma {:induction false} LastOfDedup(s: seq<Condition>)
    ensures Last(Dedup(s)) == Last(s)
  {
    if |s| > 1 { LastOfDedup(s[..|s| - 1]); }
  }

  ghost predicate NoStutters(s: seq<Condition>) {
    forall i | 0 < i < |s| :: s[i] != s[i - 1]
  }

  lemma NoStuttersAppended(s: seq<Condition>, c: Condition)
    ensures NoStutters(s + [c]) <==> NoStutters(s) && Last(s) != Some(c)
  {
    assert forall i | 0 <= i < |s| :: (s + [c])[i] == s[i];
    if NoStutters(s + [c]) {
      assert (s + [c])[|s|] == c;
      forall i | 0 < i < |s| ensures s[i] != s[i - 1] {
        assert (s + [c])[i] == s[i];
      }
    }
  }

  /** No two neighbours are equal, no condition is added or dropped altogether, and a history without
      stutters stays as it is. */
  lemma {:induction false} DedupMeans(s: seq<Condition>)
    ensures NoStutters(Dedup(s)) && (NoStutters(s) ==> Dedup(s) == s)
    ensures forall c :: c in Dedup(s) <==> c in s
  {
    if s != [] {
      var shorter, last := s[..|s| - 1], s[|s| - 1];
      assert s == shorter + [last];
      DedupMeans(shorter);
      DedupAppended(shorter, last);
      LastOfDedup(shorter);
      NoStuttersAppended(shorter, last);
      NoStuttersAppended(Dedup(shorter), last);
    }
  }

  /** Over one object's life the logged transitions are the committed conditions without stutters
      exactly when no event of the run loses one; they fall short by the number that do. The last
      one logged is then the stored condition. */
  lemma LogIsHistoryWithoutStutters(w: World, run: seq<Event>, uid: nat)
    requires Init(w) && Legal(w, run) && !Exec(w, run).pass.Logging?
    ensures
      var w' := Exec(w, run);
      var life := LifeOf(w', uid);
      && (life.logged == Dedup(life.committed) <==> Losses(w, run, uid) == 0)
      && |life.logged| + Losses(w, run, uid) == |Dedup(life.committed)|
      && (w'.store.Some? && w'.store.value.uid == uid && Losses(w, run, uid) == 0 ==>
            w'.store.value.condition == Last(life.logged))
  {
    RunKeepsInv(w, run);
    LostIsLosses(w, run, uid);
    var w' := Exec(w, run);
    assert Accounted(w', uid);
    LastOfDedup(LifeOf(w', uid).committed);
  }

  /** A run without crashes and without lost replies to status updates logs every transition. */
  lemma QuietRunLogsEverything(w: World, run: seq<Event>, uid: nat)
    requires Init(w) && Legal(w, run) && !Exec(w, run).pass.Logging?
    requires Crash !in run && UpdateStatus(LandedUnheard) !in run
    ensures LifeOf(Exec(w, run), uid).logged == Dedup(LifeOf(Exec(w, run), uid).committed)
  {
    QuietRunLosesNothing(w, run, uid);
    LogIsHistoryWithoutStutters(w, run, uid);
  }

  /** In every run the API shows the stored object as deprovisioning from the moment its deletion is
      requested, as pending exactly until a first condition is committed, and afterwards as the last
      committed condition says. */
  lemma CoarseStatusFollowsLife(w: World, run: seq<Event>)
    requires Init(w) && Legal(w, run) && Exec(w, run).store.Some?
    ensures
      var o := Exec(w, run).store.value;
      var committed := LifeOf(Exec(w, run), o.uid).committed;
      var shown := ConvertStatusCondition(o.deleting, true, o.condition);
      && (o.deleting ==> shown.Deprovisioning?)
      && (shown.Pending? <==> !o.deleting && committed == [])
      && (!o.deleting && committed != [] ==>
            var reason := committed[|committed| - 1].reason;
            && (shown.Provisioned? <==> reason == REASON_PROVISIONED)
            && (shown.Errored? <==> reason in [REASON_ERRORED, REASON_DEPENDENCY_NOT_FOUND])
            && (shown.Deprovisioning? <==> reason in [REASON_DEPROVISIONED, REASON_DEPROVISIONING])
            && (shown.Provisioning? <==> reason !in [REASON_PROVISIONED, REASON_ERRORED, REASON_DEPENDENCY_NOT_FOUND,
                                                     REASON_DEPROVISIONED, REASON_DEPROVISIONING]))
  {
    RunKeepsInv(w, run);
  }

  /** A write that the store refuses changes nothing there and ends the pass, except that a pass with no
      condition to write goes on. */
  lemma RefusedWritesNothing(w: World, e: Event)
    requires Enabled(w, e) && e in {AddFinalizer(Refused), UpdateStatus(Refused), RemoveFinalizer(Refused)}
    ensures Apply(w, e) == w.(pass := Apply(w, e).pass)
    ensures Apply(w, e).pass.Idle? || (e.UpdateStatus? && Derived(w.pass.err, w.pass.deprovision).None?)
  {
  }

  lemma Prepend(w: World, e: Event, run: seq<Event>)
    requires Enabled(w, e) && Legal(Apply(w, e), run)
    ensures Legal(w, [e] + run) && Exec(w, [e] + run) == Exec(Apply(w, e), run)
  {
    assert ([e] + run)[1..] == run;
  }

  /** Losing one is possible: a crash between the commit and the log line is enough. */
  lemma CrashLosesTransition(w: World) returns (run: seq<Event>)
    requires Init(w)
    ensures Legal(w, run) && !Exec(w, run).pass.Logging?
    ensures LifeOf(Exec(w, run), 0).logged == [] && LifeOf(Exec(w, run), 0).committed != []
  {
    var w1 := Apply(w, Create(false, [FINALIZER]));
    var w2 := Apply(w1, Get);
    var w3 := Apply(w2, ProvisionReturns(None));
    var w4 := Apply(w3, UpdateStatus(Landed));
    run := [];
    Prepend(w4, Crash, run);
    run := [Crash] + run;
    Prepend(w3, UpdateStatus(Landed), run);
    run := [UpdateStatus(Landed)] + run;
    Prepend(w2, ProvisionReturns(None), run);
    run := [ProvisionReturns(None)] + run;
    Prepend(w1, Get, run);
    run := [Get] + run;
    Prepend(w, Create(false, [FINALIZER]), run);
    run := [Create(false, [FINALIZER])] + run;
  }
}
