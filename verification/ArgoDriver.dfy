/**
 Applications have no name of their own: the driver finds the one for an identifier by its
 labels. One worker per identifier looks up and then acts, while the others do the same.
 */
module ArgoDriver {
  import opened Common

  const APPLICATION_LABEL := "unikorn-cloud.org/application"

  datatype Id = Id(name: string, labels: seq<(string, string)>)

  type LabelSet = map<string, string>

  function WithLabels(base: LabelSet, labels: seq<(string, string)>): LabelSet {
    if labels == [] then base
    else WithLabels(base, labels[..|labels| - 1])[labels[|labels| - 1].0 := labels[|labels| - 1].1]
  }

  /** The identifier's name as a label, overridden by its own labels in order. */
  function Labels(id: Id): LabelSet {
    WithLabels(map[APPLICATION_LABEL := id.name], id.labels)
  }

  /** The last label of its name. */
  predicate Final(labels: seq<(string, string)>, i: nat)
    requires i < |labels|
  {
    forall j | i < j < |labels| :: labels[j].0 != labels[i].0
  }

  lemma {:induction false} FinalLabelWins(base: LabelSet, labels: seq<(string, string)>, i: nat)
    requires i < |labels|
    ensures labels[i].0 in WithLabels(base, labels)
    ensures Final(labels, i) ==> WithLabels(base, labels)[labels[i].0] == labels[i].1
    decreases |labels|
  {
    var last := |labels| - 1;
    if i < last {
      FinalLabelWins(base, labels[..last], i);
      assert Final(labels, i) ==> Final(labels[..last], i) && labels[last].0 != labels[i].0;
    }
  }

  lemma {:induction false} UnnamedKeysStay(base: LabelSet, labels: seq<(string, string)>, k: string)
    requires forall i | 0 <= i < |labels| :: labels[i].0 != k
    ensures Lookup(WithLabels(base, labels), k) == Lookup(base, k)
    decreases |labels|
  {
    if labels != [] { UnnamedKeysStay(base, labels[..|labels| - 1], k); }
  }

  /** The last label of every name wins; the application key holds the name unless a label takes
      it; there is nothing else. */
  lemma LabelsMean(id: Id)
    ensures forall i: nat | i < |id.labels| :: id.labels[i].0 in Labels(id)
    ensures forall i: nat | i < |id.labels| && Final(id.labels, i) :: Labels(id)[id.labels[i].0] == id.labels[i].1
    ensures forall k | forall i: nat | i < |id.labels| :: id.labels[i].0 != k ::
              Lookup(Labels(id), k) == if k == APPLICATION_LABEL then Some(id.name) else None
  {
    var base := map[APPLICATION_LABEL := id.name];
    forall i: nat | i < |id.labels|
      ensures id.labels[i].0 in Labels(id) && (Final(id.labels, i) ==> Labels(id)[id.labels[i].0] == id.labels[i].1)
    {
      FinalLabelWins(base, id.labels, i);
    }
    forall k | forall i: nat | i < |id.labels| :: id.labels[i].0 != k
      ensures Lookup(Labels(id), k) == if k == APPLICATION_LABEL then Some(id.name) else None
    {
      UnnamedKeysStay(base, id.labels, k);
    }
  }

  method ApplicationLabels(id: Id) returns (labels: LabelSet)
    ensures labels == Labels(id)
  {
    labels := map[APPLICATION_LABEL := id.name];
    for i := 0 to |id.labels|
      invariant labels == WithLabels(map[APPLICATION_LABEL := id.name], id.labels[..i])
    {
      assert id.labels[..i + 1][..i] == id.labels[..i];
      labels := labels[id.labels[i].0 := id.labels[i].1];
    }
    assert id.labels[..|id.labels|] == id.labels;
  }

  /** A label selector picks every application that carries at least its labels. */
  predicate Selects(selector: LabelSet, labels: LabelSet) {
    forall k | k in selector :: k in labels && labels[k] == selector[k]
  }

  datatype App = App(labels: LabelSet, deleting: bool)

  function Found(apps: map<nat, App>, id: Id): set<nat> {
    set a | a in apps && Selects(Labels(id), apps[a].labels)
  }

  datatype Pc = Idle | Creating | Patching(app: nat) | Finalizing(app: nat) | Deleting(app: nat)

  /** `gone` holds the identifiers whose foreground deletion has returned nil since they were last
      created; `mismatches` the lookups that failed with more than one application. */
  datatype State = State(apps: map<nat, App>, next: nat, pcs: map<Id, Pc>, mismatches: seq<Id>, gone: set<Id>)

  datatype Step =
    | LookupToUpdate(id: Id)
    | Create(id: Id, lands: bool)
    | Patch(id: Id, lands: bool)
    | LookupToDelete(id: Id, background: bool)
    | PatchFinalizer(id: Id, lands: bool)
    | Delete(id: Id, lands: bool)
    | Abandon(id: Id)
    | Removed(app: nat)

  function PcOf(s: State, id: Id): Pc {
    if id in s.pcs then s.pcs[id] else Idle
  }

  ghost predicate Init(s: State) {
    s == State(map[], 0, map[], [], {})
  }

  /** Only identifiers of the family are ever worked on. */
  predicate Enabled(family: set<Id>, s: State, step: Step) {
    match step
    case LookupToUpdate(id) => id in family && PcOf(s, id).Idle?
    case Create(id, _) => id in family && PcOf(s, id).Creating?
    case Patch(id, lands) => id in family && PcOf(s, id).Patching? && (lands ==> PcOf(s, id).app in s.apps)
    case LookupToDelete(id, _) => id in family && PcOf(s, id).Idle?
    case PatchFinalizer(id, lands) =>
      id in family && PcOf(s, id).Finalizing? && (lands ==> PcOf(s, id).app in s.apps)
    case Delete(id, lands) => id in family && PcOf(s, id).Deleting? && (lands ==> PcOf(s, id).app in s.apps)
    case Abandon(id) => id in family
    case Removed(a) => a in s.apps
  }

  datatype Result = NotFound | Ambiguous | Unique(app: nat)

  lemma OnlyOne(found: set<nat>)
    requires |found| == 1
    ensures exists a :: found == {a}
  {
    var a :| a in found;
    assert found - {a} == {} || |found - {a}| > 0;
    assert found == {a};
  }

  /** GetHelmApplication, at the instant of its list call. */
  function GetHelmApplication(apps: map<nat, App>, id: Id): Result {
    var found := Found(apps, id);
    if found == {} then NotFound
    else if |found| > 1 then Ambiguous
    else OnlyOne(found); var a :| a in found; Unique(a)
  }

  function Apply(family: set<Id>, s: State, step: Step): State
    requires Enabled(family, s, step)
  {
    match step
    case LookupToUpdate(id) =>
      (match GetHelmApplication(s.apps, id)
       case NotFound => s.(pcs := s.pcs[id := Creating])
       case Ambiguous => s.(mismatches := s.mismatches + [id])
       case Unique(a) => s.(pcs := s.pcs[id := Patching(a)]))
    case Create(id, lands) =>
      var s' := s.(pcs := s.pcs[id := Idle]);
      if !lands then s'
      else s'.(apps := s.apps[s.next := App(Labels(id), false)], next := s.next + 1, gone := s.gone - {id})
    case Patch(id, lands) =>
      var a := PcOf(s, id).app;
      var s' := s.(pcs := s.pcs[id := Idle]);
      if lands then s'.(apps := s.apps[a := s.apps[a].(labels := Labels(id))]) else s'
    case LookupToDelete(id, background) =>
      (match GetHelmApplication(s.apps, id)
       case NotFound => if background then s else s.(gone := s.gone + {id})
       case Ambiguous => s.(mismatches := s.mismatches + [id])
       case Unique(a) => if s.apps[a].deleting then s else s.(pcs := s.pcs[id := Finalizing(a)]))
    case PatchFinalizer(id, lands) =>
      s.(pcs := s.pcs[id := if lands then Deleting(PcOf(s, id).app) else Idle])
    case Delete(id, lands) =>
      var a := PcOf(s, id).app;
      var s' := s.(pcs := s.pcs[id := Idle]);
      if lands then s'.(apps := s.apps[a := s.apps[a].(deleting := true)]) else s'
    case Abandon(id) => s.(pcs := s.pcs[id := Idle])
    case Removed(a) => s.(apps := s.apps - {a})
  }

  ghost predicate Legal(family: set<Id>, s: State, run: seq<Step>)
    decreases |run|
  {
    run != [] ==> Enabled(family, s, run[0]) && Legal(family, Apply(family, s, run[0]), run[1..])
  }

  ghost function Exec(family: set<Id>, s: State, run: seq<Step>): State
    requires Legal(family, s, run)
    decreases |run|
  {
    if run == [] then s else Exec(family, Apply(family, s, run[0]), run[1..])
  }

  // ---------------------------------------------------------------- uniqueness

  /** No identifier's selector picks another's applications. */
  ghost predicate Antichain(family: set<Id>) {
    forall a, b | a in family && b in family && Selects(Labels(a), Labels(b)) :: a == b
  }

  ghost predicate Owned(family: set<Id>, labels: LabelSet) {
    exists id :: id in family && labels == Labels(id)
  }

  ghost predicate OneEach(family: set<Id>, apps: map<nat, App>) {
    && (forall a | a in apps :: Owned(family, apps[a].labels))
    && (forall a, b | a in apps && b in apps && apps[a].labels == apps[b].labels :: a == b)
  }

  predicate Targets(pc: Pc) {
    pc.Patching? || pc.Finalizing? || pc.Deleting?
  }

  /** While an identifier is about to be created, or is gone, it has no application; what it is
      about to patch or delete is its own. */
  ghost predicate WorkerOk(s: State, id: Id) {
    var pc := PcOf(s, id);
    && (pc.Creating? || id in s.gone ==> forall a | a in s.apps :: s.apps[a].labels != Labels(id))
    && (Targets(pc) ==> pc.app < s.next && (pc.app in s.apps ==> s.apps[pc.app].labels == Labels(id)))
  }

  ghost predicate Inv(family: set<Id>, s: State) {
    && OneEach(family, s.apps)
    && s.mismatches == []
    && (forall a | a in s.apps :: a < s.next)
    && (forall id | id in family :: WorkerOk(s, id))
    && s.gone <= family
  }

  /** What a selector of the family finds is its own application, and at most one. */
  lemma FoundIsOwn(family: set<Id>, apps: map<nat, App>, id: Id)
    requires Antichain(family) && OneEach(family, apps) && id in family
    ensures forall a :: a in Found(apps, id) <==> a in apps && apps[a].labels == Labels(id)
    ensures |Found(apps, id)| <= 1
  {
    var found := Found(apps, id);
    forall a | a in found ensures apps[a].labels == Labels(id) {
      var owner :| owner in family && apps[a].labels == Labels(owner);
    }
    if found != {} {
      var a :| a in found;
      assert found == {a};
    }
  }

  lemma LookupResult(family: set<Id>, apps: map<nat, App>, id: Id)
    requires Antichain(family) && OneEach(family, apps) && id in family
    ensures
      match GetHelmApplication(apps, id)
      case NotFound => forall a | a in apps :: apps[a].labels != Labels(id)
      case Ambiguous => false
      case Unique(a) => a in apps && apps[a].labels == Labels(id)
  {
    FoundIsOwn(family, apps, id);
  }

  /** A worker that changes nothing but its own bookkeeping, to a state that is in order. */
  lemma OwnMoveKeepsInv(family: set<Id>, s: State, s': State, id: Id)
    requires Inv(family, s) && id in family
    requires s' == s.(pcs := s'.pcs, gone := s'.gone)
    requires forall other :: other != id ==> PcOf(s', other) == PcOf(s, other)
    requires s'.gone == s.gone || s'.gone == s.gone + {id}
    requires WorkerOk(s', id)
    ensures Inv(family, s')
  {
    forall other | other in family ensures WorkerOk(s', other) {
      assert WorkerOk(s, other);
    }
  }

  /** Applications whose labels stay as they are, some of them leaving. */
  lemma FewerAppsKeepInv(family: set<Id>, s: State, apps: map<nat, App>)
    requires Inv(family, s)
    requires forall a | a in apps :: a in s.apps && apps[a].labels == s.apps[a].labels
    ensures Inv(family, s.(apps := apps))
  {
    var s' := s.(apps := apps);
    forall id | id in family ensures WorkerOk(s', id) {
      assert WorkerOk(s, id) && PcOf(s', id) == PcOf(s, id);
    }
  }

  lemma CreateKeepsInv(family: set<Id>, s: State, id: Id)
    requires Antichain(family) && Inv(family, s) && Enabled(family, s, Create(id, true))
    ensures Inv(family, Apply(family, s, Create(id, true)))
  {
    var s' := Apply(family, s, Create(id, true));
    assert WorkerOk(s, id);
    assert Owned(family, Labels(id));
    assert s'.apps == s.apps[s.next := App(Labels(id), false)];
    forall a | a in s'.apps ensures Owned(family, s'.apps[a].labels) && a < s'.next {
    }
    forall other | other in family ensures WorkerOk(s', other) {
      assert WorkerOk(s, other);
      assert other != id ==> PcOf(s', other) == PcOf(s, other);
      assert Labels(other) == Labels(id) ==> other == id;
    }
  }

  lemma LookupKeepsInv(family: set<Id>, s: State, step: Step)
    requires Antichain(family) && Inv(family, s) && Enabled(family, s, step)
    requires step.LookupToUpdate? || step.LookupToDelete?
    ensures Inv(family, Apply(family, s, step))
  {
    var s' := Apply(family, s, step);
    assert WorkerOk(s, step.id);
    LookupResult(family, s.apps, step.id);
    assert !GetHelmApplication(s.apps, step.id).Ambiguous?;
    assert WorkerOk(s', step.id);
    OwnMoveKeepsInv(family, s, s', step.id);
  }

  lemma IdleKeepsInv(family: set<Id>, s: State, id: Id)
    requires Inv(family, s) && id in family
    ensures Inv(family, s.(pcs := s.pcs[id := Idle]))
  {
    assert WorkerOk(s, id);
    OwnMoveKeepsInv(family, s, s.(pcs := s.pcs[id := Idle]), id);
  }

  lemma StepKeepsInv(family: set<Id>, s: State, step: Step)
    requires Antichain(family) && Inv(family, s) && Enabled(family, s, step)
    ensures Inv(family, Apply(family, s, step))
  {
    var s' := Apply(family, s, step);
    match step
    case LookupToUpdate(_) => LookupKeepsInv(family, s, step);
    case LookupToDelete(_, _) => LookupKeepsInv(family, s, step);
    case Create(id, lands) =>
      if lands { CreateKeepsInv(family, s, id); } else { IdleKeepsInv(family, s, id); }
    case Patch(id, lands) =>
      assert WorkerOk(s, id);
      IdleKeepsInv(family, s, id);
      if lands { FewerAppsKeepInv(family, s.(pcs := s.pcs[id := Idle]), s'.apps); }
    case PatchFinalizer(id, _) =>
      assert WorkerOk(s, id);
      OwnMoveKeepsInv(family, s, s', id);
    case Delete(id, lands) =>
      IdleKeepsInv(family, s, id);
      if lands { FewerAppsKeepInv(family, s.(pcs := s.pcs[id := Idle]), s'.apps); }
    case Abandon(id) => IdleKeepsInv(family, s, id);
    case Removed(a) => FewerAppsKeepInv(family, s, s'.apps);
  }

  lemma {:induction false} RunKeepsInv(family: set<Id>, s: State, run: seq<Step>)
    requires Antichain(family) && Inv(family, s) && Legal(family, s, run)
    ensures Inv(family, Exec(family, s, run))
    decreases |run|
  {
    if run != [] {
      StepKeepsInv(family, s, run[0]);
      RunKeepsInv(family, Apply(family, s, run[0]), run[1..]);
    }
  }

  /** For a family none of whose selectors picks another's labels: every run keeps at most one
      application per identifier, no lookup ever meets two, and after a foreground delete that
      returned nil there is none until its own worker creates it anew. */
  lemma ApplicationsAreUnique(family: set<Id>, s: State, run: seq<Step>)
    requires Antichain(family) && Init(s) && Legal(family, s, run)
    ensures
      var s' := Exec(family, s, run);
      && (forall id | id in family :: |Found(s'.apps, id)| <= 1)
      && s'.mismatches == []
      && (forall id | id in s'.gone :: Found(s'.apps, id) == {})
  {
    RunKeepsInv(family, s, run);
    var s' := Exec(family, s, run);
    forall id | id in family
      ensures |Found(s'.apps, id)| <= 1 && (id in s'.gone ==> Found(s'.apps, id) == {})
    {
      FoundIsOwn(family, s'.apps, id);
    }
  }

  lemma Prepend(family: set<Id>, s: State, step: Step, run: seq<Step>)
    requires Enabled(family, s, step) && Legal(family, Apply(family, s, step), run)
    ensures Legal(family, s, [step] + run)
    ensures Exec(family, s, [step] + run) == Exec(family, Apply(family, s, step), run)
  {
    assert ([step] + run)[1..] == run;
  }

  /** The condition cannot be weakened: if one selector picks another identifier's labels, some run
      from the empty store ends in a lookup that finds two applications. */
  lemma OverlapBreaksLookup(family: set<Id>, s: State, a: Id, b: Id) returns (run: seq<Step>)
    requires Init(s) && a in family && b in family && a != b && Selects(Labels(a), Labels(b))
    ensures Legal(family, s, run) && Exec(family, s, run).mismatches == [a]
  {
    var s1 := Apply(family, s, LookupToUpdate(a));
    assert Found(s.apps, a) == {} && Found(s1.apps, b) == {};
    var s2 := Apply(family, s1, LookupToUpdate(b));
    var s3 := Apply(family, s2, Create(a, true));
    var s4 := Apply(family, s3, Create(b, true));
    assert s4.apps == map[0 := App(Labels(a), false), 1 := App(Labels(b), false)];
    assert Found(s4.apps, a) == {0, 1};
    var s5 := Apply(family, s4, LookupToUpdate(a));
    assert s5.mismatches == [a];
    run := [];
    Prepend(family, s4, LookupToUpdate(a), run);
    run := [LookupToUpdate(a)] + run;
    Prepend(family, s3, Create(b, true), run);
    run := [Create(b, true)] + run;
    Prepend(family, s2, Create(a, true), run);
    run := [Create(a, true)] + run;
    Prepend(family, s1, LookupToUpdate(b), run);
    run := [LookupToUpdate(b)] + run;
    Prepend(family, s, LookupToUpdate(a), run);
    run := [LookupToUpdate(a)] + run;
  }

  /** One label more is enough for an overlap: whatever the identifier, its selector also picks what is
      labelled for the same name with its labels and another one. */
  lemma ExtraLabelOverlaps(id: Id, key: string, value: string)
    requires key != APPLICATION_LABEL && forall i | 0 <= i < |id.labels| :: id.labels[i].0 != key
    ensures Selects(Labels(id), Labels(Id(id.name, id.labels + [(key, value)])))
    ensures !Selects(Labels(Id(id.name, id.labels + [(key, value)])), Labels(id))
  {
    assert (id.labels + [(key, value)])[..|id.labels|] == id.labels;
    UnnamedKeysStay(map[APPLICATION_LABEL := id.name], id.labels, key);
  }

  /** Lookups stay unambiguous in all runs exactly for families without such an overlap. */
  lemma UnambiguousIffAntichain(family: set<Id>, s: State)
    requires Init(s)
    ensures Antichain(family) <==> forall run :: Legal(family, s, run) ==> Exec(family, s, run).mismatches == []
  {
    if Antichain(family) {
      forall run | Legal(family, s, run) ensures Exec(family, s, run).mismatches == [] {
        ApplicationsAreUnique(family, s, run);
      }
    } else {
      var a, b :| a in family && b in family && Selects(Labels(a), Labels(b)) && a != b;
      var run := OverlapBreaksLookup(family, s, a, b);
    }
  }

  // ---------------------------------------------------------------- isolation

  /** Not done by the worker of `id`: another identifier's step, or a deletion being completed. */
  predicate IsOthers(id: Id, step: Step) {
    step.Removed? || step.id != id
  }

  /** The applications of `id` in `apps'` are some of those in `apps`, as they were. */
  ghost predicate Untouched(apps: map<nat, App>, apps': map<nat, App>, id: Id) {
    forall a | a in Found(apps', id) :: a in apps && apps[a] == apps'[a]
  }

  /** A worker leaves every application it touches with its own identifier's labels. */
  lemma TouchedIsOwn(family: set<Id>, s: State, step: Step, a: nat)
    requires Enabled(family, s, step) && a in Apply(family, s, step).apps && (!step.Removed? ==> WorkerOk(s, step.id))
    ensures
      var apps := Apply(family, s, step).apps;
      (a in s.apps && apps[a] == s.apps[a]) || (!step.Removed? && apps[a].labels == Labels(step.id))
  {
  }

  lemma OthersStepTouchesNothing(family: set<Id>, s: State, step: Step, id: Id)
    requires Antichain(family) && Inv(family, s) && Enabled(family, s, step) && id in family && IsOthers(id, step)
    ensures Untouched(s.apps, Apply(family, s, step).apps, id)
  {
    var apps := Apply(family, s, step).apps;
    forall a | a in Found(apps, id) ensures a in s.apps && s.apps[a] == apps[a] {
      TouchedIsOwn(family, s, step, a);
    }
  }

  /** Whatever the others do, an identifier's applications change only by going away. */
  lemma {:induction false} OthersTouchNothing(family: set<Id>, s: State, run: seq<Step>, id: Id)
    requires Antichain(family) && Inv(family, s) && Legal(family, s, run)
    requires id in family && forall step | step in run :: IsOthers(id, step)
    ensures Untouched(s.apps, Exec(family, s, run).apps, id)
    decreases |run|
  {
    if run != [] {
      var s1 := Apply(family, s, run[0]);
      OthersStepTouchesNothing(family, s, run[0], id);
      StepKeepsInv(family, s, run[0]);
      OthersTouchNothing(family, s1, run[1..], id);
    }
  }

  // ---------------------------------------------------------------- the operations among others

  lemma {:induction false} RunThenStep(family: set<Id>, s: State, run: seq<Step>, step: Step)
    requires Legal(family, s, run) && Enabled(family, Exec(family, s, run), step)
    ensures Legal(family, s, run + [step])
    ensures Exec(family, s, run + [step]) == Apply(family, Exec(family, s, run), step)
    decreases |run|
  {
    if run == [] {
      Prepend(family, s, step, []);
      assert [] + [step] == [step] + [];
    } else {
      RunThenStep(family, Apply(family, s, run[0]), run[1..], step);
      assert (run + [step])[1..] == run[1..] + [step];
    }
  }

  /** The steps of the worker of `id` in a run. */
  ghost function Own(id: Id, run: seq<Step>): seq<Step> {
    if run == [] then []
    else Own(id, run[..|run| - 1]) + if IsOthers(id, run[|run| - 1]) then [] else [run[|run| - 1]]
  }

  /** What a lookup decides, by the applications there are: nothing to delete, more than one, one whose
      deletion is under way, or one to patch or delete. */
  lemma LookupDecides(family: set<Id>, s: State, id: Id, background: bool)
    requires Enabled(family, s, LookupToDelete(id, background))
    ensures
      var found := Found(s.apps, id);
      var toUpdate, toDelete := Apply(family, s, LookupToUpdate(id)), Apply(family, s, LookupToDelete(id, background));
      && toUpdate.apps == toDelete.apps == s.apps
      && (found == {} ==>
            && toUpdate == s.(pcs := s.pcs[id := Creating])
            && toDelete == s.(gone := if background then s.gone else s.gone + {id}))
      && (|found| > 1 ==> toUpdate == toDelete == s.(mismatches := s.mismatches + [id]))
      && (forall a | found == {a} ::
            && toUpdate == s.(pcs := s.pcs[id := Patching(a)])
            && toDelete == if s.apps[a].deleting then s else s.(pcs := s.pcs[id := Finalizing(a)]))
  {
    forall a | Found(s.apps, id) == {a} ensures GetHelmApplication(s.apps, id) == Unique(a) {
      assert a in Found(s.apps, id);
    }
  }

  lemma WriteIsFound(family: set<Id>, s: State, write: Step)
    requires Enabled(family, s, write) && ((write.Create? && write.lands) || (write.Patch? && write.lands))
    ensures
      var apps := Apply(family, s, write).apps;
      exists a ::
        && a in Found(apps, write.id) && apps[a].labels == Labels(write.id)
        && (write.Create? ==> !apps[a].deleting)
        && (write.Patch? ==> a in s.apps && apps[a].deleting == s.apps[a].deleting)
  {
    var a := if write.Create? then s.next else PcOf(s, write.id).app;
    assert a in Found(Apply(family, s, write).apps, write.id);
  }

  /** A request that is refused changes no application and ends the worker's attempt. */
  lemma RefusedChangesNothing(family: set<Id>, s: State, step: Step)
    requires Enabled(family, s, step)
    requires (step.Create? || step.Patch? || step.PatchFinalizer? || step.Delete?) && !step.lands
    ensures Apply(family, s, step) == s.(pcs := s.pcs[step.id := Idle])
  {
  }

  /** A deletion that lands marks the one application there is. */
  lemma DeleteMarksAll(family: set<Id>, s: State, id: Id)
    requires Antichain(family) && Inv(family, s) && Enabled(family, s, Delete(id, true))
    ensures
      var apps := Apply(family, s, Delete(id, true)).apps;
      forall a | a in Found(apps, id) :: apps[a].deleting
  {
    var s' := Apply(family, s, Delete(id, true));
    assert WorkerOk(s, id);
    StepKeepsInv(family, s, Delete(id, true));
    FoundIsOwn(family, s'.apps, id);
  }

  datatype Error = ErrItemLengthMismatch | ErrApi | ErrYield

  datatype Health = Healthy | Degraded | OtherHealth

  /** The synchronization and the health that the written application reports, if any. */
  datatype Status = Status(synced: Option<bool>, health: Option<Health>)

  /** Nothing is left to wait for. */
  ghost predicate Settled(status: Status, allowDegraded: bool) {
    && status.synced == Some(true)
    && (status.health == Some(Healthy) || (allowDegraded && status.health == Some(Degraded)))
  }

  /** Synchronization counts before health, which can look well without it. */
  method CheckStatus(status: Status, allowDegraded: bool) returns (err: Option<Error>)
    ensures err == if Settled(status, allowDegraded) then None else Some(ErrYield)
  {
    if status.synced.None? || !status.synced.value { return Some(ErrYield); }
    if status.health.None? { return Some(ErrYield); }
    if allowDegraded && status.health.value.Degraded? { return None; }
    if !status.health.value.Healthy? { return Some(ErrYield); }
    return None;
  }

  /** A request may fail, or land and its reply be lost. */
  datatype Reply = Refused | Lost | Heard

  /** What an update does and reports: it fails before the lookup, stops at an ambiguous one, or goes on
      to one write, whose reply decides. */
  ghost predicate UpdateReport(id: Id, steps: seq<Step>, reply: Reply, err: Option<Error>) {
    && (err == Some(ErrApi) <==> !reply.Heard?)
    && (err == Some(ErrItemLengthMismatch) <==> steps == [LookupToUpdate(id)])
    && (steps == [] ==> reply.Refused?)
    && (steps == [] || steps == [LookupToUpdate(id)]
        || steps == [LookupToUpdate(id), Create(id, !reply.Refused?)]
        || steps == [LookupToUpdate(id), Patch(id, !reply.Refused?)])
  }

  /** There is exactly one application and its deletion is under way. */
  ghost predicate UnderDeletion(apps: map<nat, App>, id: Id) {
    exists a :: Found(apps, id) == {a} && apps[a].deleting
  }

  /** First the finalizer, then the deletion, if the reply to the former was heard. */
  ghost predicate RequestSteps(id: Id, steps: seq<Step>, reply: Reply) {
    || (steps == [PatchFinalizer(id, false)] && reply.Refused?)
    || (steps == [PatchFinalizer(id, true), Abandon(id)] && reply.Lost?)
    || steps == [PatchFinalizer(id, true), Delete(id, !reply.Refused?)]
  }

  /** A deletion fails at the lookup, is decided by it, or goes on to its requests. */
  ghost predicate DeletionSteps(id: Id, background: bool, steps: seq<Step>, reply: Reply) {
    || (steps == [] && reply.Refused?)
    || (steps == [LookupToDelete(id, background)] && reply.Heard?)
    || (|steps| > 1 && steps[0] == LookupToDelete(id, background) && RequestSteps(id, steps[1..], reply))
  }

  /** The driver in the hands of one worker, with the others free to act before every call. */
  class Driver {
    const family: set<Id>
    var s: State
    /** The state it started in and everything that happened since. */
    ghost var start: State
    ghost var run: seq<Step>

    ghost predicate Valid()
      reads this
    {
      Legal(family, start, run) && Exec(family, start, run) == s
    }

    constructor (family: set<Id>)
      ensures Valid() && this.family == family && Init(s) && start == s && run == []
    {
      this.family := family;
      s, start, run := State(map[], 0, map[], [], {}), State(map[], 0, map[], [], {}), [];
    }

    /** One atomic step of the model. */
    method Do(step: Step)
      requires Valid() && Enabled(family, s, step)
      modifies this
      ensures Valid() && s == Apply(family, old(s), step) && start == old(start)
      ensures forall id :: Own(id, run) == Own(id, old(run)) + if IsOthers(id, step) then [] else [step]
    {
      RunThenStep(family, start, run, step);
      assert (run + [step])[..|run|] == run;
      run := run + [step];
      s := Apply(family, s, step);
    }

    /** Any number of steps by anybody else. */
    method Interference(id: Id)
      requires Valid()
      modifies this
      ensures Valid() && start == old(start) && PcOf(s, id) == old(PcOf(s, id)) && Own(id, run) == Own(id, old(run))
    {
      var n: nat := *;
      while n > 0
        invariant Valid() && start == old(start)
        invariant PcOf(s, id) == old(PcOf(s, id)) && Own(id, run) == Own(id, old(run))
      {
        var step: Step := *;
        if IsOthers(id, step) && Enabled(family, s, step) { Do(step); }
        n := n - 1;
      }
    }

    /** The API's reply to a request of the worker of `id`, which cannot land on what is gone. */
    method Answer(id: Id) returns (reply: Reply)
      requires Valid()
      modifies this
      ensures Valid() && start == old(start) && PcOf(s, id) == old(PcOf(s, id)) && Own(id, run) == Own(id, old(run))
      ensures !reply.Refused? && Targets(PcOf(s, id)) ==> PcOf(s, id).app in s.apps
    {
      Interference(id);
      reply := *;
      if Targets(PcOf(s, id)) && PcOf(s, id).app !in s.apps { reply := Refused; }
    }

    method Lookup(id: Id) returns (r: Result)
      ensures r == GetHelmApplication(s.apps, id)
      ensures r.NotFound? <==> Found(s.apps, id) == {}
      ensures r.Ambiguous? <==> |Found(s.apps, id)| > 1
      ensures r.Unique? ==> Found(s.apps, id) == {r.app}
    {
      var selector := ApplicationLabels(id);
      var found := set a | a in s.apps && Selects(selector, s.apps[a].labels);
      assert found == Found(s.apps, id);
      if found == {} { return NotFound; }
      if |found| > 1 { return Ambiguous; }
      OnlyOne(found);
      var a :| a in found;
      return Unique(a);
    }

    /** What the family's runs keep holds here and now. */
    lemma Settle(id: Id)
      requires Valid() && id in family
      ensures Antichain(family) && Inv(family, start) ==> Inv(family, s) && |Found(s.apps, id)| <= 1
    {
      if Antichain(family) && Inv(family, start) {
        RunKeepsInv(family, start, run);
        FoundIsOwn(family, s.apps, id);
      }
    }

    method LookForUpdate(id: Id) returns (r: Result)
      requires Valid() && id in family && PcOf(s, id).Idle?
      modifies this
      ensures Valid() && start == old(start) && Own(id, run) == Own(id, old(run)) + [LookupToUpdate(id)]
      ensures r.Ambiguous? <==> |Found(s.apps, id)| > 1
      ensures match r
              case NotFound => PcOf(s, id).Creating?
              case Ambiguous => PcOf(s, id).Idle?
              case Unique(a) => PcOf(s, id) == Patching(a)
    {
      Interference(id);
      r := Lookup(id);
      Do(LookupToUpdate(id));
    }

    /** The one write of an update, after which there is an application if it landed. */
    method WriteApplication(id: Id) returns (reply: Reply, ghost write: Step)
      requires Valid() && id in family && (PcOf(s, id).Creating? || PcOf(s, id).Patching?)
      modifies this
      ensures Valid() && start == old(start) && PcOf(s, id).Idle? && Own(id, run) == Own(id, old(run)) + [write]
      ensures write == if old(PcOf(s, id)).Creating? then Create(id, !reply.Refused?) else Patch(id, !reply.Refused?)
      ensures !reply.Refused? ==>
                exists a ::
                  a in Found(s.apps, id) && s.apps[a].labels == Labels(id) && (write.Create? ==> !s.apps[a].deleting)
    {
      reply := Answer(id);
      var step := if PcOf(s, id).Creating? then Create(id, !reply.Refused?) else Patch(id, !reply.Refused?);
      if !reply.Refused? { WriteIsFound(family, s, step); }
      Do(step);
      write := step;
    }

    /** The call continues the run with the worker's own steps. An ambiguity is reported iff there is
        one; for a family without overlapping selectors there is none, and once the write is heard to
        have landed there is exactly one application. */
    method CreateOrUpdate(id: Id, allowDegraded: bool)
      returns (err: Option<Error>, ghost steps: seq<Step>, ghost reply: Reply, ghost status: Status)
      requires Valid() && id in family && PcOf(s, id).Idle?
      modifies this
      ensures Valid() && start == old(start) && PcOf(s, id).Idle? && Own(id, run) == Own(id, old(run)) + steps
      ensures UpdateReport(id, steps, reply, err)
      ensures err == Some(ErrItemLengthMismatch) ==> |Found(s.apps, id)| > 1
      ensures |steps| == 2 && reply.Heard? ==> (err.None? <==> Settled(status, allowDegraded))
      ensures |steps| == 2 && reply.Heard? ==>
                exists a ::
                  a in Found(s.apps, id) && s.apps[a].labels == Labels(id) && (steps[1].Create? ==> !s.apps[a].deleting)
      ensures reply.Heard? && Antichain(family) && Inv(family, start) ==> |Found(s.apps, id)| == 1
      ensures Antichain(family) && Inv(family, start) ==> Inv(family, s) && err != Some(ErrItemLengthMismatch)
    {
      var listed: bool := *;
      var reported: Status := *;
      status := reported;
      if !listed {
        Settle(id);
        return Some(ErrApi), [], Refused, status;
      }
      var r := LookForUpdate(id);
      Settle(id);
      if r.Ambiguous? { return Some(ErrItemLengthMismatch), [LookupToUpdate(id)], Heard, status; }
      var answer;
      ghost var write;
      answer, write := WriteApplication(id);
      Settle(id);
      steps := [LookupToUpdate(id), write];
      if !answer.Heard? { return Some(ErrApi), steps, answer, status; }
      err := CheckStatus(reported, allowDegraded);
      return err, steps, answer, status;
    }

    /** The finalizer goes on first; without a heard reply the call ends there. */
    method PatchFinalizers(id: Id) returns (reply: Reply, ghost steps: seq<Step>)
      requires Valid() && id in family && PcOf(s, id).Finalizing?
      modifies this
      ensures Valid() && start == old(start) && Own(id, run) == Own(id, old(run)) + steps
      ensures reply.Heard? ==> PcOf(s, id).Deleting? && steps == [PatchFinalizer(id, true)]
      ensures !reply.Heard? ==> PcOf(s, id).Idle? && RequestSteps(id, steps, reply)
    {
      reply := Answer(id);
      Do(PatchFinalizer(id, !reply.Refused?));
      steps := [PatchFinalizer(id, !reply.Refused?)];
      if reply.Lost? {
        Do(Abandon(id));
        steps := [PatchFinalizer(id, true), Abandon(id)];
      }
    }

    /** If the reply is heard, what there is is being deleted. */
    method SendDeletion(id: Id) returns (reply: Reply)
      requires Valid() && id in family && PcOf(s, id).Deleting?
      modifies this
      ensures Valid() && start == old(start) && PcOf(s, id).Idle?
      ensures Own(id, run) == Own(id, old(run)) + [Step.Delete(id, !reply.Refused?)]
      ensures Antichain(family) && Inv(family, start) && reply.Heard? ==>
                forall a | a in Found(s.apps, id) :: s.apps[a].deleting
    {
      reply := Answer(id);
      if Antichain(family) && Inv(family, start) && reply.Heard? {
        RunKeepsInv(family, start, run);
        DeleteMarksAll(family, s, id);
      }
      Do(Step.Delete(id, !reply.Refused?));
    }

    method RequestDeletion(id: Id) returns (reply: Reply, ghost steps: seq<Step>)
      requires Valid() && id in family && PcOf(s, id).Finalizing?
      modifies this
      ensures Valid() && start == old(start) && PcOf(s, id).Idle? && Own(id, run) == Own(id, old(run)) + steps
      ensures RequestSteps(id, steps, reply)
      ensures Antichain(family) && Inv(family, start) && reply.Heard? ==>
                forall a | a in Found(s.apps, id) :: s.apps[a].deleting
    {
      reply, steps := PatchFinalizers(id);
      if reply.Heard? {
        reply := SendDeletion(id);
        steps := [PatchFinalizer(id, true), Step.Delete(id, !reply.Refused?)];
      }
    }

    /** The lookup of a deletion, and whether one is under way already. */
    method LookForDeletion(id: Id, background: bool) returns (r: Result, ongoing: bool)
      requires Valid() && id in family && PcOf(s, id).Idle?
      modifies this
      ensures Valid() && start == old(start)
      ensures Own(id, run) == Own(id, old(run)) + [LookupToDelete(id, background)]
      ensures r == GetHelmApplication(s.apps, id) && (r.Unique? ==> Found(s.apps, id) == {r.app})
      ensures ongoing <==> UnderDeletion(s.apps, id)
      ensures PcOf(s, id) == if r.Unique? && !ongoing then Finalizing(r.app) else Idle
      ensures r.NotFound? <==> Found(s.apps, id) == {}
      ensures r.NotFound? && !background ==> id in s.gone
      ensures r.Ambiguous? <==> |Found(s.apps, id)| > 1
    {
      Interference(id);
      r := Lookup(id);
      assert r.Unique? ==> r.app in Found(s.apps, id);
      ongoing := r.Unique? && s.apps[r.app].deleting;
      assert ongoing <==> UnderDeletion(s.apps, id) by {
        if a :| Found(s.apps, id) == {a} && s.apps[a].deleting { assert a in Found(s.apps, id); }
      }
      Do(LookupToDelete(id, background));
    }

    /** The call continues the run with the worker's own steps. A nil from a foreground delete means
        that there is no application left, and one from a background delete that what is left of a
        family without overlapping selectors is being deleted. */
    method Delete(id: Id, background: bool) returns (err: Option<Error>, ghost steps: seq<Step>, ghost reply: Reply)
      requires Valid() && id in family && PcOf(s, id).Idle?
      modifies this
      ensures Valid() && start == old(start) && PcOf(s, id).Idle? && Own(id, run) == Own(id, old(run)) + steps
      ensures DeletionSteps(id, background, steps, reply)
      ensures err == Some(ErrApi) <==> !reply.Heard?
      ensures |steps| == 1 ==>
                && (err.None? <==> Found(s.apps, id) == {} || (background && UnderDeletion(s.apps, id)))
                && (err == Some(ErrYield) <==> !background && UnderDeletion(s.apps, id))
                && (err == Some(ErrItemLengthMismatch) <==> |Found(s.apps, id)| > 1)
      ensures |steps| > 1 && reply.Heard? ==> err == if background then None else Some(ErrYield)
      ensures err.None? && !background ==> Found(s.apps, id) == {} && id in s.gone
      ensures Antichain(family) && Inv(family, start) ==>
                && Inv(family, s) && err != Some(ErrItemLengthMismatch)
                && (err.None? ==> forall a | a in Found(s.apps, id) :: s.apps[a].deleting)
    {
      var listed: bool := *;
      if !listed {
        Settle(id);
        return Some(ErrApi), [], Refused;
      }
      var r, ongoing := LookForDeletion(id, background);
      Settle(id);
      steps, reply := [LookupToDelete(id, background)], Heard;
      match r
      case Ambiguous => return Some(ErrItemLengthMismatch), steps, reply;
      case NotFound => return None, steps, reply;
      case Unique(a) =>
        if ongoing { return if background then None else Some(ErrYield), steps, reply; }
        var answer;
        ghost var requests;
        answer, requests := RequestDeletion(id);
        Settle(id);
        steps := steps + requests;
        assert steps[1..] == requests;
        if !answer.Heard? { return Some(ErrApi), steps, answer; }
        return if background then None else Some(ErrYield), steps, answer;
    }
  }
}
