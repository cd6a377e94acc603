/** What holds of the cache in every run, whatever the interleaving. */
module CacheRuns {
  import opened Common
  import opened CacheModel

  // ---------------------------------------------------------------- specification

  ghost function LastWrite<T>(writes: seq<Write<T>>, k: string): Option<Entry<T>> {
    if writes == [] then None
    else if writes[|writes| - 1].key == k then Some(writes[|writes| - 1].entry)
    else LastWrite(writes[..|writes| - 1], k)
  }

  /** The last local write of `k`, if it is later than the start of the last committed refresh. */
  ghost function LiveWrite<T>(s: State<T>, k: string): Option<Entry<T>> {
    var w := LastWrite(s.writes, k);
    if w.Some? && w.value.epoch > BaseEpoch(s) then w else None
  }

  /** What a reader must see at `k`: the live local write, or else the committed backend data. */
  ghost function Expected<T>(s: State<T>, k: string): Option<T> {
    var w := LiveWrite(s, k);
    if w.Some? then Some(w.value.item) else Lookup(s.base, k)
  }

  ghost predicate Refines<T>(s: State<T>) {
    && (s.v.cache.Some? <==> s.commits != [])
    && (s.v.cache.None? ==> s.writes == [])
    && (forall k :: Lookup(s.v.overlay, k) == LiveWrite(s, k))
    && (s.v.cache.Some? ==> forall k :: Lookup(s.v.cache.value, k) == Expected(s, k))
  }

  ghost predicate Ordered<T>(s: State<T>) {
    && s.v.epoch <= s.v.nextEpoch
    && BaseEpoch(s) <= s.v.nextEpoch
    && (forall i, j | 0 <= i < j < |s.commits| :: s.commits[i] < s.commits[j])
    && (forall k :: LastWrite(s.writes, k).Some? ==> LastWrite(s.writes, k).value.epoch <= s.v.nextEpoch)
  }

  ghost predicate SurvivorAfter<T>(s: State<T>, r: nat) {
    exists k :: k in s.v.overlay && s.v.overlay[k].epoch > r
  }

  /** A published epoch newer than the refresh in flight comes from a write that outlives it. */
  ghost predicate FlightOrdered<T>(s: State<T>) {
    !s.flight.Grounded? ==>
      && BaseEpoch(s) < s.flight.epoch <= s.v.nextEpoch
      && (s.v.epoch < s.flight.epoch || SurvivorAfter(s, s.flight.epoch))
      && (s.flight.Fetching? ==> s.flight.since != [] && s.flight.since[|s.flight.since| - 1] == s.backend)
  }

  ghost predicate Inv<T>(s: State<T>) {
    Refines(s) && Ordered(s) && FlightOrdered(s)
  }

  // ---------------------------------------------------------------- one step

  lemma LastWriteAppended<T>(writes: seq<Write<T>>, w: Write<T>, k: string)
    ensures LastWrite(writes + [w], k) == if w.key == k then Some(w.entry) else LastWrite(writes, k)
  {
    assert (writes + [w])[..|writes|] == writes;
  }

  lemma WriteKeepsInv<T>(s: State<T>, k: string, item: T)
    requires Inv(s) && s.v.cache.Some?
    ensures Inv(AfterWrite(s, k, Written(s.v, k, item)))
  {
    var v' := Written(s.v, k, item);
    var s' := AfterWrite(s, k, v');
    var w := Write(k, v'.overlay[k]);
    forall k' ensures LastWrite(s'.writes, k') == if k == k' then Some(w.entry) else LastWrite(s.writes, k') {
      LastWriteAppended(s.writes, w, k');
    }
    forall k' ensures Lookup(s'.v.overlay, k') == LiveWrite(s', k') {
      assert Lookup(s.v.overlay, k') == LiveWrite(s, k');
    }
    forall k' ensures Lookup(s'.v.cache.value, k') == Expected(s', k') {
      assert Lookup(s.v.cache.value, k') == Expected(s, k');
    }
    if !s.flight.Grounded? {
      assert k in s'.v.overlay && s'.v.overlay[k].epoch > s'.flight.epoch;
    }
  }

  lemma LandedShape<T(!new)>(o: Ops<T>, s: State<T>, base: map<string, T>)
    requires s.flight.Fetched? && s.v.epoch <= s.v.nextEpoch && s.flight.epoch <= s.v.nextEpoch
    ensures
      var v' := Landed(o, s, base).v;
      && v'.overlay == Survivors(s.v.overlay, s.flight.epoch)
      && v'.cache == Some(Merge(base, v'.overlay))
      && v'.epoch <= v'.nextEpoch
      && s.v.nextEpoch <= v'.nextEpoch
  {
  }

  lemma LandedKeepsInv<T(!new)>(o: Ops<T>, s: State<T>, base: map<string, T>)
    requires Inv(s) && s.flight.Fetched?
    ensures Inv(Landed(o, s, base))
  {
    var s' := Landed(o, s, base);
    assert BaseEpoch(s') == s.flight.epoch;
    assert s'.writes == s.writes && s'.base == base;
    LandedShape(o, s, base);
    forall k ensures Lookup(s'.v.overlay, k) == LiveWrite(s', k) {
      assert Lookup(s.v.overlay, k) == LiveWrite(s, k);
    }
    forall k ensures Lookup(s'.v.cache.value, k) == Expected(s', k) {
      assert Lookup(s'.v.overlay, k) == LiveWrite(s', k);
    }
  }

  lemma SameHistory<T>(s: State<T>, s': State<T>)
    requires Refines(s)
    requires s' == s.(v := s.v.(nextEpoch := s'.v.nextEpoch), flight := s'.flight, backend := s'.backend)
    ensures Refines(s')
  {
  }

  lemma StepKeepsInv<T(!new)>(o: Ops<T>, s: State<T>, step: Step<T>)
    requires Inv(s) && Enabled(s, step)
    ensures Inv(Apply(o, s, step))
  {
    var s' := Apply(o, s, step);
    match step
    case Upsert(item) =>
      if s.v.cache.Some? { WriteKeepsInv(s, o.index(item), item); }
    case InsertIfAbsent(item) =>
      if s.v.cache.Some? && o.index(item) !in s.v.cache.value { WriteKeepsInv(s, o.index(item), item); }
    case FinishRefresh =>
      if Commits(o, s.flight.fetch) {
        LandedKeepsInv(o, s, Indexed(o, s.flight.fetch.data));
      } else {
        SameHistory(s, s');
      }
    case _ => SameHistory(s, s');
  }

  /** Published epochs only grow, and one that stays put names an unchanged view. */
  ghost predicate Identity<T(!new)>(o: Ops<T>, v: View<T>, v': View<T>) {
    && v.epoch <= v'.epoch
    && (v.cache.Some? ==> v'.cache.Some?)
    && (v.cache.Some? && v.epoch == v'.epoch ==> MapEqual(o, v.cache.value, v'.cache.value))
  }

  lemma StepIdentity<T(!new)>(o: Ops<T>, s: State<T>, step: Step<T>)
    requires Equivalence(o) && Inv(s) && Enabled(s, step)
    ensures Identity(o, s.v, Apply(o, s, step).v)
  {
    if step.FinishRefresh? && Commits(o, s.flight.fetch) {
      var overlay := Survivors(s.v.overlay, s.flight.epoch);
      if SurvivorAfter(s, s.flight.epoch) {
        var k :| k in s.v.overlay && s.v.overlay[k].epoch > s.flight.epoch;
        assert k in overlay;
      }
    }
  }

  // ---------------------------------------------------------------- whole runs

  lemma {:induction false} RunKeepsInv<T(!new)>(o: Ops<T>, s: State<T>, steps: seq<Step<T>>)
    requires Inv(s) && Legal(o, s, steps)
    ensures Inv(Exec(o, s, steps))
    decreases |steps|
  {
    if steps != [] {
      StepKeepsInv(o, s, steps[0]);
      RunKeepsInv(o, Apply(o, s, steps[0]), steps[1..]);
    }
  }

  /** In every run the readers' view is the last committed data overridden, key by key, by the
      local writes later than that refresh's start, and the overlay is exactly those writes. */
  lemma Refinement<T(!new)>(o: Ops<T>, s: State<T>, steps: seq<Step<T>>)
    requires Init(s) && Legal(o, s, steps)
    ensures Refines(Exec(o, s, steps))
  {
    RunKeepsInv(o, s, steps);
  }

  lemma {:induction false} RunIdentity<T(!new)>(o: Ops<T>, s: State<T>, steps: seq<Step<T>>)
    requires Equivalence(o) && Inv(s) && Legal(o, s, steps)
    ensures Identity(o, s.v, Exec(o, s, steps).v)
    decreases |steps|
  {
    if steps != [] {
      StepIdentity(o, s, steps[0]);
      StepKeepsInv(o, s, steps[0]);
      RunIdentity(o, Apply(o, s, steps[0]), steps[1..]);
    }
  }

  /** Two snapshots of one run with the same epoch show Equal views; epochs never go back. */
  lemma EpochIdentity<T(!new)>(o: Ops<T>, s: State<T>, before: seq<Step<T>>, between: seq<Step<T>>)
    requires Equivalence(o) && Init(s) && Legal(o, s, before) && Legal(o, Exec(o, s, before), between)
    ensures
      var v, v' := Exec(o, s, before).v, Exec(o, Exec(o, s, before), between).v;
      && v.epoch <= v'.epoch
      && (v.cache.Some? && v.epoch == v'.epoch ==> v'.cache.Some? && MapEqual(o, v.cache.value, v'.cache.value))
  {
    RunKeepsInv(o, s, before);
    RunIdentity(o, Exec(o, s, before), between);
  }

  /** The view `v'` that a refresh begun at `r` leaves of `v`, and the epoch that names it. */
  ghost predicate EpochNamesView<T(!new)>(o: Ops<T>, v: View<T>, r: nat, v': View<T>)
    requires v.cache.Some?
  {
    && v'.cache.Some?
    && (v'.epoch == v.epoch <==> MapEqual(o, v.cache.value, v'.cache.value))
    && (v'.epoch != v.epoch ==> v'.epoch > v.epoch && v'.epoch == if |v'.overlay| == 0 then r else v.nextEpoch + 1)
  }

  lemma CommitNamesView<T(!new)>(o: Ops<T>, v: View<T>, r: nat, base: map<string, T>)
    requires Equivalence(o) && v.cache.Some? && v.epoch <= v.nextEpoch
    requires v.epoch < r || exists k :: k in v.overlay && v.overlay[k].epoch > r
    ensures EpochNamesView(o, v, r, Committed(o, v, r, base))
  {
    var overlay := Survivors(v.overlay, r);
    var effective := Merge(base, overlay);
    assert MapEqual(o, effective, v.cache.value) <==> MapEqual(o, v.cache.value, effective);
    if k :| k in v.overlay && v.overlay[k].epoch > r { assert k in overlay; }
  }

  /** In every run a refresh over a filled cache keeps the epoch exactly when the view it leaves is
      Equal to the one it found. Otherwise it publishes a strictly later one: the epoch at which it
      began if no local write outlived it, even though that was allocated before the fetch, and a
      new one if some did. */
  lemma RefreshKeepsEpochIffUnchanged<T(!new)>(o: Ops<T>, s: State<T>, steps: seq<Step<T>>)
    requires Equivalence(o) && Init(s) && Legal(o, s, steps)
    requires Exec(o, s, steps).flight.Fetched? && Exec(o, s, steps).v.cache.Some?
    ensures
      var s1 := Exec(o, s, steps);
      EpochNamesView(o, s1.v, s1.flight.epoch, Apply(o, s1, FinishRefresh).v)
  {
    RunKeepsInv(o, s, steps);
    var s1 := Exec(o, s, steps);
    if Commits(o, s1.flight.fetch) {
      CommitNamesView(o, s1.v, s1.flight.epoch, Indexed(o, s1.flight.fetch.data));
    }
  }

  /** Before the first commit no epoch has been published and nothing written. */
  lemma {:induction false} UnfilledIsBlank<T(!new)>(o: Ops<T>, s: State<T>, steps: seq<Step<T>>)
    requires Legal(o, s, steps) && (s.v.cache.None? ==> s.v.epoch == 0 && s.v.overlay == map[])
    ensures Exec(o, s, steps).v.cache.None? ==> Exec(o, s, steps).v.epoch == 0 && Exec(o, s, steps).v.overlay == map[]
    decreases |steps|
  {
    if steps != [] { UnfilledIsBlank(o, Apply(o, s, steps[0]), steps[1..]); }
  }

  /** The first refresh that commits fills the cache with exactly the data fetched and publishes the
      epoch at which it began, except that an empty listing fills it without publishing any. */
  lemma FirstCommitPublishes<T(!new)>(o: Ops<T>, s: State<T>, steps: seq<Step<T>>)
    requires Init(s) && Legal(o, s, steps)
    requires
      var s1 := Exec(o, s, steps);
      s1.v.cache.None? && s1.flight.Fetched? && Commits(o, s1.flight.fetch)
    ensures
      var s1 := Exec(o, s, steps);
      var v' := Apply(o, s1, FinishRefresh).v;
      && v'.cache == Some(Indexed(o, s1.flight.fetch.data)) && v'.overlay == map[]
      && v'.epoch == if s1.flight.fetch.data == [] then 0 else s1.flight.epoch
  {
    UnfilledIsBlank(o, s, steps);
    var s1 := Exec(o, s, steps);
    var data := s1.flight.fetch.data;
    var base := Indexed(o, data);
    assert Survivors(s1.v.overlay, s1.flight.epoch) == map[];
    assert Merge(base, map[]) == base;
    if data != [] { assert o.index(data[|data| - 1]) in base; }
  }

  // ---------------------------------------------------------------- read your writes

  /** A fetch that lists each key as the backend held it at some moment since the refresh began. */
  ghost predicate Faithful<T>(o: Ops<T>, s: State<T>, fetch: Fetch<T>)
    requires s.flight.Fetching?
  {
    Commits(o, fetch) ==>
      forall k :: exists b :: b in s.flight.since && Lookup(Indexed(o, fetch.data), k) == Lookup(b, k)
  }

  /** Nothing but `item` is written at `k`, here or in the backend, and fetches are faithful. */
  ghost predicate Undisturbed<T(!new)>(o: Ops<T>, s: State<T>, steps: seq<Step<T>>, k: string, item: T)
    decreases |steps|
  {
    steps != [] ==>
      && Enabled(s, steps[0])
      && (match steps[0]
          case Upsert(x) => o.index(x) == k ==> x == item
          case InsertIfAbsent(x) => o.index(x) == k ==> x == item
          case BackendChange(after) => Lookup(after, k) == Some(item)
          case FetchReturns(fetch) => Faithful(o, s, fetch)
          case _ => true)
      && Undisturbed(o, Apply(o, s, steps[0]), steps[1..], k, item)
  }

  /** `item` is visible at `k`, and the refresh in flight cannot take it away. */
  ghost predicate Held<T>(o: Ops<T>, s: State<T>, k: string, item: T) {
    && Lookup(s.backend, k) == Some(item)
    && s.v.cache.Some? && Lookup(s.v.cache.value, k) == Some(item)
    && (k in s.v.overlay ==> s.v.overlay[k].item == item)
    && (!s.flight.Grounded? ==>
          || (k in s.v.overlay && s.v.overlay[k].epoch > s.flight.epoch)
          || (s.flight.Fetching? && forall b | b in s.flight.since :: Lookup(b, k) == Some(item))
          || (s.flight.Fetched? && (Commits(o, s.flight.fetch) ==>
                                      Lookup(Indexed(o, s.flight.fetch.data), k) == Some(item))))
  }

  lemma LandedKeepsHeld<T(!new)>(o: Ops<T>, s: State<T>, k: string, item: T)
    requires Inv(s) && Held(o, s, k, item) && s.flight.Fetched? && Commits(o, s.flight.fetch)
    ensures Held(o, Apply(o, s, FinishRefresh), k, item)
  {
    var base := Indexed(o, s.flight.fetch.data);
    LandedShape(o, s, base);
    assert Lookup(Merge(base, Survivors(s.v.overlay, s.flight.epoch)), k) == Some(item);
  }

  lemma WrittenKeepsHeld<T>(o: Ops<T>, s: State<T>, x: T, k: string, item: T)
    requires Inv(s) && Held(o, s, k, item) && (o.index(x) == k ==> x == item)
    ensures Held(o, AfterWrite(s, o.index(x), Written(s.v, o.index(x), x)), k, item)
  {
  }

  lemma StepKeepsHeld<T(!new)>(o: Ops<T>, s: State<T>, step: Step<T>, k: string, item: T)
    requires Inv(s) && Held(o, s, k, item) && Undisturbed(o, s, [step], k, item)
    ensures Held(o, Apply(o, s, step), k, item)
  {
    assert [step][0] == step;
    match step
    case Upsert(x) => WrittenKeepsHeld(o, s, x, k, item);
    case InsertIfAbsent(x) => if o.index(x) !in s.v.cache.value { WrittenKeepsHeld(o, s, x, k, item); }
    case FinishRefresh => if Commits(o, s.flight.fetch) { LandedKeepsHeld(o, s, k, item); }
    case FetchReturns(fetch) =>
      if Commits(o, fetch) {
        var b :| b in s.flight.since && Lookup(Indexed(o, fetch.data), k) == Lookup(b, k);
      }
    case _ =>
  }

  lemma {:induction false} RunKeepsHeld<T(!new)>(o: Ops<T>, s: State<T>, steps: seq<Step<T>>, k: string, item: T)
    requires Inv(s) && Held(o, s, k, item) && Undisturbed(o, s, steps, k, item)
    ensures Legal(o, s, steps) && Held(o, Exec(o, s, steps), k, item)
    decreases |steps|
  {
    if steps != [] {
      assert Undisturbed(o, s, [steps[0]], k, item);
      StepKeepsHeld(o, s, steps[0], k, item);
      StepKeepsInv(o, s, steps[0]);
      RunKeepsHeld(o, Apply(o, s, steps[0]), steps[1..], k, item);
    }
  }

  /** A write that lands is protected from the refresh in flight by its own, later epoch. */
  lemma WriteIsHeld<T(!new)>(o: Ops<T>, s: State<T>, write: Step<T>)
    requires Inv(s) && s.v.cache.Some? && (write.Upsert? || write.InsertIfAbsent?)
    requires Lookup(s.backend, o.index(write.item)) == Some(write.item)
    requires write.InsertIfAbsent? ==> o.index(write.item) !in s.v.cache.value
    ensures Inv(Apply(o, s, write)) && Held(o, Apply(o, s, write), o.index(write.item), write.item)
  {
    StepKeepsInv(o, s, write);
  }

  /** Once the backend holds `item`, a local write that lands makes it visible for as long as
      nothing else is written at its key, however many refreshes overlap. */
  lemma ReadYourWrites<T(!new)>(o: Ops<T>, s: State<T>, before: seq<Step<T>>, write: Step<T>, after: seq<Step<T>>)
    requires Init(s) && Legal(o, s, before)
    requires write.Upsert? || write.InsertIfAbsent?
    requires
      var s0 := Exec(o, s, before);
      var k := o.index(write.item);
      && Lookup(s0.backend, k) == Some(write.item)
      && s0.v.cache.Some?
      && (write.InsertIfAbsent? ==> k !in s0.v.cache.value)
      && Undisturbed(o, Apply(o, s0, write), after, k, write.item)
    ensures
      var s1 := Apply(o, Exec(o, s, before), write);
      && Legal(o, s1, after)
      && Exec(o, s1, after).v.cache.Some?
      && Lookup(Exec(o, s1, after).v.cache.value, o.index(write.item)) == Some(write.item)
  {
    RunKeepsInv(o, s, before);
    var s0 := Exec(o, s, before);
    WriteIsHeld(o, s0, write);
    RunKeepsHeld(o, Apply(o, s0, write), after, o.index(write.item), write.item);
  }

  lemma Prepend<T(!new)>(o: Ops<T>, s: State<T>, step: Step<T>, steps: seq<Step<T>>)
    requires Enabled(s, step) && Legal(o, Apply(o, s, step), steps)
    ensures Legal(o, s, [step] + steps) && Exec(o, s, [step] + steps) == Exec(o, Apply(o, s, step), steps)
  {
    assert ([step] + steps)[1..] == steps;
  }

  /** An insert that finds its key taken promises nothing: a run in which the backend commits the
      item first, the insert succeeds, and readers go on seeing the stale value. */
  lemma NoOpInsertIsNotReadYourWrites()
    returns (o: Ops<(string, int)>, s: State<(string, int)>, steps: seq<Step<(string, int)>>)
    ensures Equivalence(o) && Init(s) && Legal(o, s, steps)
    ensures steps != [] && steps[|steps| - 1] == InsertIfAbsent(("k", 2))
    ensures
      var s' := Exec(o, s, steps);
      && Lookup(s'.backend, "k") == Some(("k", 2))
      && s'.v.cache.Some? && Lookup(s'.v.cache.value, "k") == Some(("k", 1))
  {
    o := Ops((x: (string, int)) => x.0, (x: (string, int), y: (string, int)) => x == y);
    var stale, current := ("k", 1), ("k", 2);
    s := State(View(0, 0, None, map[]), map["k" := stale], Grounded, map[], [], []);
    var s1 := Apply(o, s, BeginRefresh);
    var s2 := Apply(o, s1, FetchReturns(Items([stale])));
    var s3 := Apply(o, s2, FinishRefresh);
    var none: seq<(string, int)> := [];
    assert [stale][..0] == none && Indexed(o, [stale]) == Indexed(o, none)["k" := stale];
    assert Lookup(s3.v.cache.value, "k") == Some(stale);
    var s4 := Apply(o, s3, BackendChange(map["k" := current]));
    var s5 := Apply(o, s4, InsertIfAbsent(current));
    steps := [];
    Prepend(o, s4, InsertIfAbsent(current), steps);
    steps := [InsertIfAbsent(current)] + steps;
    Prepend(o, s3, BackendChange(map["k" := current]), steps);
    steps := [BackendChange(map["k" := current])] + steps;
    Prepend(o, s2, FinishRefresh, steps);
    steps := [FinishRefresh] + steps;
    Prepend(o, s1, FetchReturns(Items([stale])), steps);
    steps := [FetchReturns(Items([stale]))] + steps;
    Prepend(o, s, BeginRefresh, steps);
    steps := [BeginRefresh] + steps;
  }

  // ---------------------------------------------------------------- what a later refresh shows

  /** Whatever is or will be visible at `k` from later than epoch `n` is `item`: the backend, local
      writes, the refresh in flight and the committed data. */
  ghost predicate SettledAfter<T>(o: Ops<T>, s: State<T>, n: nat, k: string, item: T) {
    && Lookup(s.backend, k) == Some(item)
    && (k in s.v.overlay && s.v.overlay[k].epoch > n ==> s.v.overlay[k].item == item)
    && (s.flight.Fetching? && s.flight.epoch > n ==> forall b | b in s.flight.since :: Lookup(b, k) == Some(item))
    && (s.flight.Fetched? && s.flight.epoch > n && Commits(o, s.flight.fetch) ==>
          Lookup(Indexed(o, s.flight.fetch.data), k) == Some(item))
    && (BaseEpoch(s) > n ==> Lookup(s.base, k) == Some(item))
  }

  /** At the moment the backend holds `item`, nothing is later than the last epoch allocated. */
  lemma BackendSettles<T>(o: Ops<T>, s: State<T>, k: string, item: T)
    requires Inv(s) && Lookup(s.backend, k) == Some(item)
    ensures SettledAfter(o, s, s.v.nextEpoch, k, item)
  {
    assert Lookup(s.v.overlay, k) == LiveWrite(s, k);
  }

  lemma StepKeepsSettled<T(!new)>(o: Ops<T>, s: State<T>, step: Step<T>, n: nat, k: string, item: T)
    requires Inv(s) && SettledAfter(o, s, n, k, item) && Undisturbed(o, s, [step], k, item)
    ensures SettledAfter(o, Apply(o, s, step), n, k, item)
  {
    assert [step][0] == step;
    match step
    case FinishRefresh =>
      if Commits(o, s.flight.fetch) { LandedShape(o, s, Indexed(o, s.flight.fetch.data)); }
    case FetchReturns(fetch) =>
      if Commits(o, fetch) {
        var b :| b in s.flight.since && Lookup(Indexed(o, fetch.data), k) == Lookup(b, k);
      }
    case _ =>
  }

  lemma {:induction false} RunKeepsSettled<T(!new)>(
    o: Ops<T>, s: State<T>, steps: seq<Step<T>>, n: nat, k: string, item: T)
    requires Inv(s) && SettledAfter(o, s, n, k, item) && Undisturbed(o, s, steps, k, item)
    ensures Legal(o, s, steps) && SettledAfter(o, Exec(o, s, steps), n, k, item)
    decreases |steps|
  {
    if steps != [] {
      assert Undisturbed(o, s, [steps[0]], k, item);
      StepKeepsSettled(o, s, steps[0], n, k, item);
      StepKeepsInv(o, s, steps[0]);
      RunKeepsSettled(o, Apply(o, s, steps[0]), steps[1..], n, k, item);
    }
  }

  /** Once the backend holds `item` and nothing else is written at its key, the commit of any refresh
      begun afterwards makes it visible, whatever was written locally before, and it stays so. */
  lemma LaterCommitShows<T(!new)>(o: Ops<T>, s: State<T>, steps: seq<Step<T>>, k: string, item: T, r: nat)
    requires Inv(s) && Lookup(s.backend, k) == Some(item) && Undisturbed(o, s, steps, k, item)
    requires Legal(o, s, steps) && r in Exec(o, s, steps).commits && r > s.v.nextEpoch
    ensures
      var v := Exec(o, s, steps).v;
      v.cache.Some? && Lookup(v.cache.value, k) == Some(item)
  {
    var s' := Exec(o, s, steps);
    BackendSettles(o, s, k, item);
    RunKeepsSettled(o, s, steps, s.v.nextEpoch, k, item);
    RunKeepsInv(o, s, steps);
    var i :| 0 <= i < |s'.commits| && s'.commits[i] == r;
    assert BaseEpoch(s') >= r;
    assert Lookup(s'.v.cache.value, k) == Expected(s', k) && Lookup(s'.v.overlay, k) == LiveWrite(s', k);
  }

  // ---------------------------------------------------------------- what an insert is worth

  /** Backend data are kept under their own indexes. */
  ghost predicate Keyed<T>(o: Ops<T>, b: map<string, T>) {
    forall k | k in b :: o.index(b[k]) == k
  }

  ghost predicate KeyedSteps<T(!new)>(o: Ops<T>, steps: seq<Step<T>>) {
    forall i | 0 <= i < |steps| && steps[i].BackendChange? :: Keyed(o, steps[i].after)
  }

  ghost predicate KeyedState<T>(o: Ops<T>, s: State<T>) {
    Keyed(o, s.backend) && (s.flight.Fetching? ==> forall b | b in s.flight.since :: Keyed(o, b))
  }

  lemma {:induction false} RunStaysKeyed<T(!new)>(o: Ops<T>, s: State<T>, steps: seq<Step<T>>)
    requires KeyedState(o, s) && KeyedSteps(o, steps) && Legal(o, s, steps)
    ensures KeyedState(o, Exec(o, s, steps))
    decreases |steps|
  {
    if steps != [] {
      assert KeyedSteps(o, steps[1..]);
      RunStaysKeyed(o, Apply(o, s, steps[0]), steps[1..]);
    }
  }

  /** Any keyed backend state can be what a refresh fetches. */
  lemma {:induction false} Listing<T>(o: Ops<T>, b: map<string, T>) returns (data: seq<T>)
    requires Keyed(o, b)
    ensures Distinct(o, data) && Indexed(o, data) == b
    ensures forall i | 0 <= i < |data| :: o.index(data[i]) in b
    decreases |b.Keys|
  {
    if b == map[] {
      data := [];
    } else {
      var k :| k in b;
      var rest := b - {k};
      assert rest.Keys == b.Keys - {k};
      data := Listing(o, rest);
      var longer := data + [b[k]];
      assert longer[..|data|] == data;
      assert b == rest[k := b[k]];
      data := longer;
    }
  }

  ghost predicate Shows<T(!new)>(o: Ops<T>, s: State<T>, after: seq<Step<T>>, k: string, item: T) {
    && Legal(o, s, after)
    && Exec(o, s, after).v.cache.Some?
    && Lookup(Exec(o, s, after).v.cache.value, k) == Some(item)
  }

  /** Every continuation in which nothing else is written at `k` shows `item` there. */
  ghost predicate Promised<T(!new)>(o: Ops<T>, s: State<T>, k: string, item: T) {
    forall after :: Undisturbed(o, s, after, k, item) ==> Shows(o, s, after, k, item)
  }

  /** Committing data without `item` at `k` hides it, unless a later local write covers the key. */
  lemma CommitHides<T(!new)>(o: Ops<T>, s: State<T>, k: string, item: T)
    requires Inv(s) && s.flight.Fetched? && Commits(o, s.flight.fetch)
    requires k in s.v.overlay ==> s.v.overlay[k].epoch <= s.flight.epoch
    requires Lookup(Indexed(o, s.flight.fetch.data), k) != Some(item)
    ensures Undisturbed(o, s, [FinishRefresh] + [], k, item) && !Shows(o, s, [FinishRefresh] + [], k, item)
  {
    LandedShape(o, s, Indexed(o, s.flight.fetch.data));
    Prepend(o, s, FinishRefresh, []);
  }

  /** The refresh in flight may fetch any state of the backend since it began. */
  lemma FetchOf<T(!new)>(o: Ops<T>, s: State<T>, b: map<string, T>) returns (step: Step<T>)
    requires s.flight.Fetching? && b in s.flight.since && Keyed(o, b)
    ensures step.FetchReturns? && Commits(o, step.fetch) && Indexed(o, step.fetch.data) == b
    ensures Faithful(o, s, step.fetch)
  {
    var data := Listing(o, b);
    step := FetchReturns(Items(data));
    assert forall k :: b in s.flight.since && Lookup(Indexed(o, data), k) == Lookup(b, k);
  }

  /** What is visible but not held can be taken away by the refresh in flight. */
  lemma UnheldIsLost<T(!new)>(o: Ops<T>, s: State<T>, k: string, item: T) returns (after: seq<Step<T>>)
    requires Inv(s) && KeyedState(o, s) && s.v.cache.Some?
    requires Lookup(s.backend, k) == Some(item) && !Held(o, s, k, item)
    ensures Undisturbed(o, s, after, k, item) && !Shows(o, s, after, k, item)
  {
    assert Lookup(s.v.cache.value, k) == Expected(s, k) && Lookup(s.v.overlay, k) == LiveWrite(s, k);
    if Lookup(s.v.cache.value, k) != Some(item) {
      after := [];
    } else if s.flight.Fetched? {
      CommitHides(o, s, k, item);
      after := [FinishRefresh] + [];
    } else {
      var b :| b in s.flight.since && Lookup(b, k) != Some(item);
      var fetch := FetchOf(o, s, b);
      var s1 := Apply(o, s, fetch);
      StepKeepsInv(o, s, fetch);
      CommitHides(o, s1, k, item);
      Prepend(o, s, fetch, [FinishRefresh] + []);
      after := [fetch] + ([FinishRefresh] + []);
      assert after[1..] == [FinishRefresh] + [];
    }
  }

  lemma HeldIsPromised<T(!new)>(o: Ops<T>, s: State<T>, k: string, item: T)
    requires Inv(s) && Held(o, s, k, item)
    ensures Promised(o, s, k, item)
  {
    forall after | Undisturbed(o, s, after, k, item) ensures Shows(o, s, after, k, item) {
      RunKeepsHeld(o, s, after, k, item);
    }
  }

  /** What InsertIfAbsent is worth on a filled cache, once the backend holds the item: right away the
      item is visible iff its key was free or showed it already, and it stays so in every undisturbed
      continuation iff the key was free or the item was already safe from the refresh in flight. */
  lemma InsertKeepsPromiseIff<T(!new)>(o: Ops<T>, s: State<T>, before: seq<Step<T>>, item: T)
    requires Init(s) && Keyed(o, s.backend) && KeyedSteps(o, before) && Legal(o, s, before)
    requires
      var s0 := Exec(o, s, before);
      s0.v.cache.Some? && Lookup(s0.backend, o.index(item)) == Some(item)
    ensures
      var s0, k := Exec(o, s, before), o.index(item);
      var s1 := Apply(o, s0, InsertIfAbsent(item));
      && s1.v.cache.Some?
      && (Lookup(s1.v.cache.value, k) == Some(item) <==> k !in s0.v.cache.value || s0.v.cache.value[k] == item)
      && (Promised(o, s1, k, item) <==> k !in s0.v.cache.value || Held(o, s0, k, item))
  {
    RunKeepsInv(o, s, before);
    RunStaysKeyed(o, s, before);
    var s0, k := Exec(o, s, before), o.index(item);
    if k !in s0.v.cache.value {
      WriteIsHeld(o, s0, InsertIfAbsent(item));
      HeldIsPromised(o, Apply(o, s0, InsertIfAbsent(item)), k, item);
    } else if Held(o, s0, k, item) {
      HeldIsPromised(o, s0, k, item);
    } else {
      var after := UnheldIsLost(o, s0, k, item);
    }
  }

}
