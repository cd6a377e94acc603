/**
 The refresh-ahead cache as values: the guarded fields, one function per critical
 section, and the machine that interleaves refreshes, local writes and backend changes.
 */
module CacheModel {
  import opened Common

  /** What the cache asks of its items: an index and a modification test. */
  datatype Ops<!T> = Ops(index: T -> string, equal: (T, T) -> bool)

  ghost predicate Equivalence<T(!new)>(o: Ops<T>) {
    && (forall x :: o.equal(x, x))
    && (forall x, y :: o.equal(x, y) ==> o.equal(y, x))
    && (forall x, y, z :: o.equal(x, y) && o.equal(y, z) ==> o.equal(x, z))
  }

  datatype Entry<T> = Entry(item: T, epoch: nat)

  /** The fields behind the cache lock; an absent cache is the nil map of a cache never filled. */
  datatype View<T> = View(nextEpoch: nat, epoch: nat, cache: Option<map<string, T>>, overlay: map<string, Entry<T>>)

  /** Same keys, equal values. */
  ghost predicate MapEqual<T(!new)>(o: Ops<T>, m: map<string, T>, n: map<string, T>) {
    m.Keys == n.Keys && forall k | k in m :: o.equal(m[k], n[k])
  }

  function Written<T>(v: View<T>, k: string, item: T): View<T>
    requires v.cache.Some?
  {
    var e := v.nextEpoch + 1;
    View(e, e, Some(v.cache.value[k := item]), v.overlay[k := Entry(item, e)])
  }

  function Upserted<T>(o: Ops<T>, v: View<T>, item: T): View<T> {
    if v.cache.None? then v else Written(v, o.index(item), item)
  }

  function Inserted<T>(o: Ops<T>, v: View<T>, item: T): View<T> {
    if v.cache.None? || o.index(item) in v.cache.value then v else Written(v, o.index(item), item)
  }

  /** The overlay entries written after epoch `r`. */
  function Survivors<T>(overlay: map<string, Entry<T>>, r: nat): map<string, Entry<T>> {
    map k | k in overlay && overlay[k].epoch > r :: overlay[k]
  }

  /** Backend data with local writes laid over it. */
  function Merge<T>(base: map<string, T>, overlay: map<string, Entry<T>>): map<string, T> {
    map k | k in base.Keys + overlay.Keys :: if k in overlay then overlay[k].item else base[k]
  }

  /** The data returned by a refresh has no index twice. */
  ghost predicate Distinct<T>(o: Ops<T>, data: seq<T>) {
    forall i, j | 0 <= i < j < |data| :: o.index(data[i]) != o.index(data[j])
  }

  /** The data by index, a later item replacing an earlier one. */
  ghost function Indexed<T>(o: Ops<T>, data: seq<T>): map<string, T> {
    if data == [] then map[]
    else Indexed(o, data[..|data| - 1])[o.index(data[|data| - 1]) := data[|data| - 1]]
  }

  /** The locked tail of a refresh that began at epoch `r` and fetched `base`. */
  ghost function Committed<T(!new)>(o: Ops<T>, v: View<T>, r: nat, base: map<string, T>): View<T> {
    var overlay := Survivors(v.overlay, r);
    var effective := Merge(base, overlay);
    if MapEqual(o, effective, if v.cache.Some? then v.cache.value else map[]) then
      v.(cache := Some(effective), overlay := overlay)
    else if overlay == map[] then
      View(v.nextEpoch, r, Some(effective), overlay)
    else
      View(v.nextEpoch + 1, v.nextEpoch + 1, Some(effective), overlay)
  }

  /** How the refresh callback ended. A panic is swallowed and reported as success. */
  datatype Fetch<T> = Items(data: seq<T>) | Failed | Panicked

  ghost predicate Commits<T>(o: Ops<T>, f: Fetch<T>) {
    f.Items? && Distinct(o, f.data)
  }

  /** Whether a refresh with this outcome reports a nil error. */
  ghost predicate ReportsNil<T>(o: Ops<T>, f: Fetch<T>) {
    Commits(o, f) || f.Panicked?
  }

  /** What a refresh that began at `r` does to the fields once its fetch has ended. */
  ghost function Refreshed<T(!new)>(o: Ops<T>, v: View<T>, r: nat, f: Fetch<T>): View<T> {
    if Commits(o, f) then Committed(o, v, r, Indexed(o, f.data)) else v
  }

  // ---------------------------------------------------------------- the machine

  /** The one refresh that may be in flight; `since` lists the backend states from its start on. */
  datatype Flight<T> =
    | Grounded
    | Fetching(epoch: nat, since: seq<map<string, T>>)
    | Fetched(epoch: nat, fetch: Fetch<T>)

  datatype Write<T> = Write(key: string, entry: Entry<T>)

  /** Cache, backend and refresh in flight, with the history a specification speaks of:
      the last committed backend data, the epochs of all committed refreshes, all local writes. */
  datatype State<T> = State(
    v: View<T>,
    backend: map<string, T>,
    flight: Flight<T>,
    base: map<string, T>,
    commits: seq<nat>,
    writes: seq<Write<T>>)

  datatype Step<T> =
    | Upsert(item: T)
    | InsertIfAbsent(item: T)
    | BackendChange(after: map<string, T>)
    | BeginRefresh
    | FetchReturns(fetch: Fetch<T>)
    | FinishRefresh

  ghost predicate Init<T>(s: State<T>) {
    s.v == View(0, 0, None, map[]) && s.flight == Grounded && s.base == map[] && s.commits == [] && s.writes == []
  }

  ghost predicate Enabled<T>(s: State<T>, step: Step<T>) {
    match step
    case BeginRefresh => s.flight.Grounded?
    case FetchReturns(_) => s.flight.Fetching?
    case FinishRefresh => s.flight.Fetched?
    case _ => true
  }

  /** Epoch from which local writes count over the committed data. */
  ghost function BaseEpoch<T>(s: State<T>): nat {
    if s.commits == [] then 0 else s.commits[|s.commits| - 1]
  }

  /** A critical section that writes logs exactly the entry it adds to the overlay. */
  ghost function AfterWrite<T>(s: State<T>, k: string, v': View<T>): State<T> {
    if v' == s.v || k !in v'.overlay then s.(v := v')
    else s.(v := v', writes := s.writes + [Write(k, v'.overlay[k])])
  }

  /** The refresh in flight commits `base`. */
  ghost function Landed<T(!new)>(o: Ops<T>, s: State<T>, base: map<string, T>): State<T>
    requires s.flight.Fetched?
  {
    s.(v := Committed(o, s.v, s.flight.epoch, base), flight := Grounded, base := base,
       commits := s.commits + [s.flight.epoch])
  }

  ghost function Apply<T(!new)>(o: Ops<T>, s: State<T>, step: Step<T>): State<T>
    requires Enabled(s, step)
  {
    match step
    case Upsert(item) => AfterWrite(s, o.index(item), Upserted(o, s.v, item))
    case InsertIfAbsent(item) => AfterWrite(s, o.index(item), Inserted(o, s.v, item))
    case BackendChange(after) =>
      s.(backend := after,
         flight := if s.flight.Fetching? then s.flight.(since := s.flight.since + [after]) else s.flight)
    case BeginRefresh =>
      s.(v := s.v.(nextEpoch := s.v.nextEpoch + 1), flight := Fetching(s.v.nextEpoch + 1, [s.backend]))
    case FetchReturns(fetch) => s.(flight := Fetched(s.flight.epoch, fetch))
    case FinishRefresh =>
      if Commits(o, s.flight.fetch) then Landed(o, s, Indexed(o, s.flight.fetch.data))
      else s.(v := Refreshed(o, s.v, s.flight.epoch, s.flight.fetch), flight := Grounded)
  }

  ghost predicate Legal<T(!new)>(o: Ops<T>, s: State<T>, steps: seq<Step<T>>)
    decreases |steps|
  {
    steps != [] ==> Enabled(s, steps[0]) && Legal(o, Apply(o, s, steps[0]), steps[1..])
  }

  /** The state after a legal run. */
  ghost function Exec<T(!new)>(o: Ops<T>, s: State<T>, steps: seq<Step<T>>): State<T>
    requires Legal(o, s, steps)
    decreases |steps|
  {
    if steps == [] then s else Exec(o, Apply(o, s, steps[0]), steps[1..])
  }
}
