/**
 One object in a versioned store, its reconciler as interruptible steps, and everybody else.
 Updates are optimistic; an update may also land although the caller is told it failed.
 */
module ReconcileModel {
  import opened Common
  import opened ProvisioningStatus
  import opened ResourceReferences

  datatype Object = Object(
    uid: nat,
    version: nat,
    deleting: bool,
    paused: bool,
    finalizers: seq<string>,
    condition: Option<Condition>)

  /** Where the pass is. Each state but Idle carries the reconciler's own copy of the object. */
  datatype Pass =
    | Idle
    | AddingFinalizer(copy: Object)
    | InProvision(copy: Object)
    | InDeprovision(copy: Object)
    | Decided(copy: Object, err: Option<Error>, deprovision: bool)
    | Logging(copy: Object, err: Option<Error>, deprovision: bool, transition: Option<Condition>)
    | Finalizing(copy: Object)

  /** What happened to the Available condition in one object's life: every committed value, every
      transition logged, and how many transitions were committed but never logged. */
  datatype Life = Life(committed: seq<Condition>, logged: seq<Condition>, lost: nat)

  /** `exposed` holds the objects on which Provision was invoked and no Deprovision has since
      returned nil with deletion requested: they may own resources. */
  datatype World = World(
    store: Option<Object>,
    clock: nat,
    uids: nat,
    pass: Pass,
    exposed: set<nat>,
    lives: map<nat, Life>)

  /** How a write ended: never reached the store, landed, or landed with the reply lost. */
  datatype Reply = Refused | Landed | LandedUnheard

  datatype Event =
    // the reconciler
    | Get
    | AddFinalizer(reply: Reply)
    | ProvisionReturns(err: Option<Error>)
    | DeprovisionReturns(err: Option<Error>)
    | UpdateStatus(reply: Reply)
    | EmitLog
    | RemoveFinalizer(reply: Reply)
    | Crash
    // everybody else
    | Create(paused: bool, finalizers: seq<string>)
    | Edit(paused: bool, finalizers: seq<string>)
    | RequestDeletion

  ghost predicate Init(w: World) {
    w == World(None, 0, 0, Idle, {}, map[])
  }

  function LifeOf(w: World, uid: nat): Life {
    if uid in w.lives then w.lives[uid] else Life([], [], 0)
  }

  /** The write of `copy` can land: nothing was written since it was read. */
  predicate Unchanged(w: World, copy: Object) {
    w.store.Some? && w.store.value.uid == copy.uid && w.store.value.version == copy.version
  }

  predicate Enabled(w: World, e: Event) {
    match e
    case Get => w.pass.Idle?
    case AddFinalizer(reply) => w.pass.AddingFinalizer? && (!reply.Refused? ==> Unchanged(w, w.pass.copy))
    case ProvisionReturns(_) => w.pass.InProvision?
    case DeprovisionReturns(_) => w.pass.InDeprovision?
    case UpdateStatus(reply) => w.pass.Decided? && (!reply.Refused? ==> Unchanged(w, w.pass.copy))
    case EmitLog => w.pass.Logging?
    case RemoveFinalizer(reply) => w.pass.Finalizing? && (!reply.Refused? ==> Unchanged(w, w.pass.copy))
    case Crash => true
    case Create(_, _) => w.store.None?
    // nobody else takes the reconciler's finalizer away
    case Edit(_, fs) => w.store.Some? && (FINALIZER in w.store.value.finalizers ==> FINALIZER in fs)
    case RequestDeletion => w.store.Some?
  }

  /** The store accepts a new version; a deleted object without finalizers disappears. */
  function Stored(w: World, o: Object): World {
    w.(store := if o.deleting && o.finalizers == [] then None else Some(o.(version := w.clock + 1)),
       clock := w.clock + 1)
  }

  function Invoked(w: World, copy: Object): World {
    w.(pass := InProvision(copy), exposed := w.exposed + {copy.uid})
  }

  /** Reconcile up to its first write, (de)provision call or return. */
  function Dispatched(w: World): World
    requires w.store.Some?
  {
    var o := w.store.value;
    if o.deleting then
      if o.finalizers == [] then w
      else if GetResourceReferences(o.finalizers) != [] || DELETE_DEPENDENTS in o.finalizers then
        w.(pass := Decided(o, Some(Plain(ErrYield)), true))
      else w.(pass := InDeprovision(o))
    else if o.paused then w
    else if FINALIZER in o.finalizers then Invoked(w, o)
    else w.(pass := AddingFinalizer(o))
  }

  /** After the condition has been dealt with: finish a completed deletion, else requeue. */
  function Concluded(w: World, copy: Object, err: Option<Error>, deprovision: bool): World {
    w.(pass := if deprovision && err.None? then Finalizing(copy) else Idle)
  }

  /** The condition `c` is committed on top of the copy. */
  function Recorded(w: World, copy: Object, c: Condition): World {
    var life := LifeOf(w, copy.uid);
    var w' := Stored(w, copy.(condition := Some(c)));
    w'.(lives := w.lives[copy.uid := life.(committed := life.committed + [c])])
  }

  function Missed(w: World, uid: nat): World {
    w.(lives := w.lives[uid := LifeOf(w, uid).(lost := LifeOf(w, uid).lost + 1)])
  }

  function Logged(w: World, uid: nat, c: Condition): World {
    w.(lives := w.lives[uid := LifeOf(w, uid).(logged := LifeOf(w, uid).logged + [c])])
  }

  function StatusUpdated(w: World, reply: Reply): World
    requires w.pass.Decided? && (!reply.Refused? ==> Unchanged(w, w.pass.copy))
  {
    var Decided(copy, err, deprovision) := w.pass;
    var c := Derived(err, deprovision);
    if c.None? then Concluded(w, copy, err, deprovision)
    else if reply.Refused? then w.(pass := Idle)
    else
      var w' := Recorded(w, copy, c.value);
      var changed := copy.condition != c;
      if reply.Landed? then
        w'.(pass := Logging(copy.(condition := c, version := w.clock + 1), err, deprovision,
                            if changed then c else None))
      else
        (if changed then Missed(w', copy.uid) else w').(pass := Idle)
  }

  function Apply(w: World, e: Event): World
    requires Enabled(w, e)
  {
    match e
    case Get => if w.store.None? then w else Dispatched(w)
    case AddFinalizer(reply) =>
      var copy := w.pass.copy;
      var o := copy.(finalizers := copy.finalizers + [FINALIZER]);
      if reply.Refused? then w.(pass := Idle)
      else if reply.LandedUnheard? then Stored(w, o).(pass := Idle)
      else Invoked(Stored(w, o), o.(version := w.clock + 1))
    case ProvisionReturns(err) => w.(pass := Decided(w.pass.copy, err, false))
    case DeprovisionReturns(err) =>
      w.(pass := Decided(w.pass.copy, err, true),
         exposed := if err.None? then w.exposed - {w.pass.copy.uid} else w.exposed)
    case UpdateStatus(reply) => StatusUpdated(w, reply)
    case EmitLog =>
      var Logging(copy, err, deprovision, transition) := w.pass;
      Concluded(if transition.Some? then Logged(w, copy.uid, transition.value) else w, copy, err, deprovision)
    case RemoveFinalizer(reply) =>
      var copy := w.pass.copy;
      if FINALIZER !in copy.finalizers || reply.Refused? then w.(pass := Idle)
      else Stored(w, copy.(finalizers := Without(copy.finalizers, FINALIZER))).(pass := Idle)
    case Crash =>
      (if w.pass.Logging? && w.pass.transition.Some? then Missed(w, w.pass.copy.uid) else w).(pass := Idle)
    case Create(paused, fs) =>
      Stored(w, Object(w.uids, 0, false, paused, fs, None)).(uids := w.uids + 1)
    case Edit(paused, fs) => Stored(w, w.store.value.(paused := paused, finalizers := fs))
    case RequestDeletion =>
      if w.store.value.deleting then w else Stored(w, w.store.value.(deleting := true))
  }

  predicate Legal(w: World, run: seq<Event>)
    decreases |run|
  {
    run == [] || (Enabled(w, run[0]) && Legal(Apply(w, run[0]), run[1..]))
  }

  function Exec(w: World, run: seq<Event>): World
    requires Legal(w, run)
    decreases |run|
  {
    if run == [] then w else Exec(Apply(w, run[0]), run[1..])
  }
}
