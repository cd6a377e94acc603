/**
 The invalidation protocol around the cache: callers of Invalidate, the single refresh
 loop that Run starts, the unbuffered request queue and its closing at shutdown.
 Every state the steps below can reach by any interleaving is covered.
 */
module InvalidateProtocol {
  import opened Common
  import opened CacheModel
  import CacheRuns

  /** Why the loop runs a refresh. */
  datatype Origin = Boot | Tick | Request(id: nat)

  /** How an attempt ended. A swallowed panic reports a nil error, like a commit. */
  datatype Verdict = Fresh(epoch: nat) | SwallowedPanic | RefreshError | QueueClosed

  predicate NilError(v: Verdict) {
    v.Fresh? || v.SwallowedPanic?
  }

  /** The program counter of Run and its loop. */
  datatype Loop =
    | Unstarted
    | RunFailed
    | Idle
    | Received(id: nat)
    | Cleared(id: nat)
    | Refreshing(origin: Origin)
    | RefreshEnded(origin: Origin, verdict: Verdict)
    | Stopped

  /** Where a request is: offered on the queue, taken by the loop, in its sender's panic
      recovery before or after that clears `pending`, or done. */
  datatype Phase = Sending | Accepted | Recovering | Withdrawn | Closed(verdict: Verdict)

  datatype Req = Req(phase: Phase, closes: nat, sender: nat)

  /** One call of Invalidate; `entered` is the last epoch allocated when it began. */
  datatype Call = Call(req: nat, entered: nat, result: Option<bool>)

  datatype Proto = Proto(loop: Loop, pending: Option<nat>, reqs: seq<Req>, calls: seq<Call>)

  datatype Sys<T> = Sys(d: State<T>, p: Proto)

  datatype Event<T> =
    | Local(step: Step<T>)
    | StartRefresh(origin: Origin)
    | EndRefresh
    | Complete
    | Enter
    | Receive(id: nat)
    | ClearPending
    | Shutdown
    | SendPanics(id: nat)
    | PanicClears(id: nat)
    | PanicCloses(id: nat)
    | Return(call: nat)

  ghost predicate SysInit<T>(s: Sys<T>) {
    Init(s.d) && s.p == Proto(Unstarted, None, [], [])
  }

  /** Run has returned nil, so the queue exists. */
  predicate Serving(l: Loop) {
    match l
    case Unstarted | RunFailed => false
    case Refreshing(o) => !o.Boot?
    case RefreshEnded(o, _) => !o.Boot?
    case _ => true
  }

  predicate Begins(l: Loop, origin: Origin) {
    match origin
    case Boot => l.Unstarted?
    case Tick => l.Idle?
    case Request(id) => l == Cleared(id)
  }

  predicate InPhase(p: Proto, id: nat, phase: Phase) {
    id < |p.reqs| && p.reqs[id].phase == phase
  }

  ghost predicate May<T>(s: Sys<T>, e: Event<T>) {
    match e
    case Local(step) => !step.BeginRefresh? && !step.FinishRefresh? && Enabled(s.d, step)
    case StartRefresh(origin) => Begins(s.p.loop, origin) && s.d.flight.Grounded?
    case EndRefresh => s.p.loop.Refreshing? && s.d.flight.Fetched?
    case Complete => s.p.loop.RefreshEnded? && (s.p.loop.origin.Request? ==> s.p.loop.origin.id < |s.p.reqs|)
    case Enter => Serving(s.p.loop)
    case Receive(id) => s.p.loop.Idle? && InPhase(s.p, id, Sending)
    case ClearPending => s.p.loop.Received?
    case Shutdown => s.p.loop.Idle?
    case SendPanics(id) => s.p.loop.Stopped? && InPhase(s.p, id, Sending)
    case PanicClears(id) => InPhase(s.p, id, Recovering)
    case PanicCloses(id) => InPhase(s.p, id, Withdrawn)
    case Return(c) =>
      && c < |s.p.calls| && s.p.calls[c].result.None?
      && s.p.calls[c].req < |s.p.reqs| && s.p.reqs[s.p.calls[c].req].phase.Closed?
  }

  function MovedTo(p: Proto, id: nat, phase: Phase): Proto
    requires id < |p.reqs|
  {
    p.(reqs := p.reqs[id := p.reqs[id].(phase := phase, closes := p.reqs[id].closes + if phase.Closed? then 1 else 0)])
  }

  /** A caller joins the pending request, or becomes the sender of a new one. */
  function Entered(p: Proto, now: nat): Proto {
    if p.pending.Some? then p.(calls := p.calls + [Call(p.pending.value, now, None)])
    else
      p.(pending := Some(|p.reqs|),
         reqs := p.reqs + [Req(Sending, 0, |p.calls|)],
         calls := p.calls + [Call(|p.reqs|, now, None)])
  }

  function Completed(p: Proto): Proto
    requires p.loop.RefreshEnded? && (p.loop.origin.Request? ==> p.loop.origin.id < |p.reqs|)
  {
    match p.loop.origin
    case Boot => p.(loop := if NilError(p.loop.verdict) then Idle else RunFailed)
    case Tick => p.(loop := Idle)
    case Request(id) => MovedTo(p, id, Closed(p.loop.verdict)).(loop := Idle)
  }

  ghost function VerdictOf<T>(o: Ops<T>, r: nat, f: Fetch<T>): Verdict {
    if Commits(o, f) then Fresh(r) else if f.Panicked? then SwallowedPanic else RefreshError
  }

  ghost function After<T(!new)>(o: Ops<T>, s: Sys<T>, e: Event<T>): Sys<T>
    requires May(s, e)
  {
    match e
    case Local(step) => s.(d := Apply(o, s.d, step))
    case StartRefresh(origin) => Sys(Apply(o, s.d, BeginRefresh), s.p.(loop := Refreshing(origin)))
    case EndRefresh =>
      Sys(Apply(o, s.d, FinishRefresh),
          s.p.(loop := RefreshEnded(s.p.loop.origin, VerdictOf(o, s.d.flight.epoch, s.d.flight.fetch))))
    case Complete => s.(p := Completed(s.p))
    case Enter => s.(p := Entered(s.p, s.d.v.nextEpoch))
    case Receive(id) => s.(p := MovedTo(s.p, id, Accepted).(loop := Received(id)))
    case ClearPending => s.(p := s.p.(loop := Cleared(s.p.loop.id), pending := None))
    case Shutdown => s.(p := s.p.(loop := Stopped))
    case SendPanics(id) => s.(p := MovedTo(s.p, id, Recovering))
    case PanicClears(id) => s.(p := MovedTo(s.p, id, Withdrawn).(pending := None))
    case PanicCloses(id) => s.(p := MovedTo(s.p, id, Closed(QueueClosed)))
    case Return(c) =>
      var call := s.p.calls[c];
      s.(p := s.p.(calls := s.p.calls[c := call.(result := Some(NilError(s.p.reqs[call.req].phase.verdict)))]))
  }

  ghost predicate Possible<T(!new)>(o: Ops<T>, s: Sys<T>, run: seq<Event<T>>)
    decreases |run|
  {
    run != [] ==> May(s, run[0]) && Possible(o, After(o, s, run[0]), run[1..])
  }

  ghost function Outcome<T(!new)>(o: Ops<T>, s: Sys<T>, run: seq<Event<T>>): Sys<T>
    requires Possible(o, s, run)
    decreases |run|
  {
    if run == [] then s else Outcome(o, After(o, s, run[0]), run[1..])
  }

  // ---------------------------------------------------------------- safety

  /** The loop has taken `id` and will close it. */
  predicate Holds(l: Loop, id: nat) {
    match l
    case Received(i) => i == id
    case Cleared(i) => i == id
    case Refreshing(o) => o == Request(id)
    case RefreshEnded(o, _) => o == Request(id)
    case _ => false
  }

  /** The pending request is one whose refresh has not begun, and everything not yet taken,
      withdrawn or closed is the pending one. */
  ghost predicate PendingNotBegun(p: Proto) {
    && (p.pending.Some? ==>
          && p.pending.value < |p.reqs|
          && (var ph := p.reqs[p.pending.value].phase;
              ph.Sending? || ph.Recovering? || (ph.Accepted? && p.loop == Received(p.pending.value))))
    && (forall id | 0 <= id < |p.reqs| && (p.reqs[id].phase.Sending? || p.reqs[id].phase.Recovering?) ::
          p.pending == Some(id))
  }

  /** The loop holds exactly the accepted requests. */
  ghost predicate HeldIffAccepted(p: Proto) {
    && (forall id: nat | Holds(p.loop, id) :: id < |p.reqs| && p.reqs[id].phase.Accepted?)
    && (forall id: nat | id < |p.reqs| && p.reqs[id].phase.Accepted? :: Holds(p.loop, id))
    && (forall id: nat | p.loop == Received(id) :: p.pending == Some(id))
  }

  /** A done channel is closed once when its request is closed, and never before. */
  ghost predicate ClosedOnce(p: Proto) {
    forall id | 0 <= id < |p.reqs| :: p.reqs[id].closes == if p.reqs[id].phase.Closed? then 1 else 0
  }

  ghost predicate CallsMatch(p: Proto) {
    && (forall c | 0 <= c < |p.calls| :: p.calls[c].req < |p.reqs|)
    && (forall c | 0 <= c < |p.calls| && p.calls[c].result.Some? ::
          var ph := p.reqs[p.calls[c].req].phase;
          ph.Closed? && p.calls[c].result.value == NilError(ph.verdict))
    && (forall id | 0 <= id < |p.reqs| :: p.reqs[id].sender < |p.calls| && p.calls[p.reqs[id].sender].req == id)
  }

  /** Every call on `id` began before epoch `r` was allocated. */
  ghost predicate AllBefore(p: Proto, id: nat, r: nat) {
    forall c | 0 <= c < |p.calls| && p.calls[c].req == id :: p.calls[c].entered < r
  }

  ghost predicate FreshEnough<T>(s: Sys<T>) {
    && (forall c | 0 <= c < |s.p.calls| :: s.p.calls[c].entered <= s.d.v.nextEpoch)
    && (s.p.loop.Refreshing? <==> !s.d.flight.Grounded?)
    && (s.p.loop.Refreshing? && s.p.loop.origin.Request? ==> AllBefore(s.p, s.p.loop.origin.id, s.d.flight.epoch))
    && (s.p.loop.RefreshEnded? && s.p.loop.verdict.Fresh? ==> s.p.loop.verdict.epoch in s.d.commits)
    && (s.p.loop.RefreshEnded? && s.p.loop.verdict.Fresh? && s.p.loop.origin.Request? ==>
          AllBefore(s.p, s.p.loop.origin.id, s.p.loop.verdict.epoch))
    && (forall id | 0 <= id < |s.p.reqs| && s.p.reqs[id].phase.Closed? && s.p.reqs[id].phase.verdict.Fresh? ::
          s.p.reqs[id].phase.verdict.epoch in s.d.commits && AllBefore(s.p, id, s.p.reqs[id].phase.verdict.epoch))
  }

  ghost predicate Safe(p: Proto) {
    PendingNotBegun(p) && HeldIffAccepted(p) && ClosedOnce(p) && CallsMatch(p)
  }

  ghost predicate SysInv<T>(s: Sys<T>) {
    CacheRuns.Inv(s.d) && Safe(s.p) && FreshEnough(s)
  }

  lemma EnterKeepsSafe(p: Proto, now: nat)
    requires Safe(p)
    ensures Safe(Entered(p, now))
  {
  }

  /** A request moving on keeps everything, provided pending and loop follow it. */
  lemma MoveKeepsSafe(p: Proto, id: nat, phase: Phase, p': Proto)
    requires Safe(p) && id < |p.reqs| && !p.reqs[id].phase.Closed? && !phase.Sending?
    requires p' == MovedTo(p, id, phase).(loop := p'.loop, pending := p'.pending)
    requires p'.pending == p.pending || (p'.pending == None && p.pending == Some(id) && !phase.Recovering?)
    requires PendingNotBegun(p') && HeldIffAccepted(p')
    ensures Safe(p')
  {
  }

  /** The loop moving on with what it holds, clearing `pending` if that is what it received. */
  lemma LoopKeepsSafe(p: Proto, p': Proto)
    requires Safe(p) && p' == p.(loop := p'.loop, pending := p'.pending)
    requires forall id: nat :: Holds(p'.loop, id) <==> Holds(p.loop, id)
    requires !p'.loop.Received? && p'.pending == if p.loop.Received? then None else p.pending
    ensures Safe(p')
  {
  }

  lemma ReturnKeepsSafe(p: Proto, c: nat)
    requires Safe(p) && c < |p.calls| && p.reqs[p.calls[c].req].phase.Closed?
    ensures
      var call := p.calls[c];
      Safe(p.(calls := p.calls[c := call.(result := Some(NilError(p.reqs[call.req].phase.verdict)))]))
  {
  }

  lemma ReceiveKeepsSafe(p: Proto, id: nat)
    requires Safe(p) && p.loop.Idle? && InPhase(p, id, Sending)
    ensures Safe(MovedTo(p, id, Accepted).(loop := Received(id)))
  {
    MoveKeepsSafe(p, id, Accepted, MovedTo(p, id, Accepted).(loop := Received(id)));
  }

  /** The three steps of a sender's panic recovery. */
  lemma RecoveryKeepsSafe(p: Proto, id: nat)
    requires Safe(p)
    ensures p.loop.Stopped? && InPhase(p, id, Sending) ==> Safe(MovedTo(p, id, Recovering))
    ensures InPhase(p, id, Recovering) ==> Safe(MovedTo(p, id, Withdrawn).(pending := None))
    ensures InPhase(p, id, Withdrawn) ==> Safe(MovedTo(p, id, Closed(QueueClosed)))
  {
    if p.loop.Stopped? && InPhase(p, id, Sending) {
      MoveKeepsSafe(p, id, Recovering, MovedTo(p, id, Recovering));
    } else if InPhase(p, id, Recovering) {
      MoveKeepsSafe(p, id, Withdrawn, MovedTo(p, id, Withdrawn).(pending := None));
    } else if InPhase(p, id, Withdrawn) {
      MoveKeepsSafe(p, id, Closed(QueueClosed), MovedTo(p, id, Closed(QueueClosed)));
    }
  }

  lemma CompletionKeepsSafe(p: Proto)
    requires Safe(p) && p.loop.RefreshEnded? && (p.loop.origin.Request? ==> p.loop.origin.id < |p.reqs|)
    ensures Safe(Completed(p))
  {
    if p.loop.origin.Request? {
      assert Holds(p.loop, p.loop.origin.id);
      MoveKeepsSafe(p, p.loop.origin.id, Closed(p.loop.verdict), Completed(p));
    } else {
      LoopKeepsSafe(p, Completed(p));
    }
  }

  lemma EventKeepsSafe<T(!new)>(o: Ops<T>, s: Sys<T>, e: Event<T>)
    requires SysInv(s) && May(s, e)
    ensures Safe(After(o, s, e).p)
  {
    match e
    case Local(_) =>
    case Enter => EnterKeepsSafe(s.p, s.d.v.nextEpoch);
    case Complete => CompletionKeepsSafe(s.p);
    case Return(c) => ReturnKeepsSafe(s.p, c);
    case Receive(id) => ReceiveKeepsSafe(s.p, id);
    case SendPanics(id) => RecoveryKeepsSafe(s.p, id);
    case PanicClears(id) => RecoveryKeepsSafe(s.p, id);
    case PanicCloses(id) => RecoveryKeepsSafe(s.p, id);
    case _ => LoopKeepsSafe(s.p, After(o, s, e).p);
  }

  lemma CacheSideGrows<T(!new)>(o: Ops<T>, d: State<T>, step: Step<T>)
    requires Enabled(d, step)
    ensures d.v.nextEpoch <= Apply(o, d, step).v.nextEpoch
    ensures d.commits <= Apply(o, d, step).commits
    ensures !step.FinishRefresh? && !step.BeginRefresh? ==>
              (Apply(o, d, step).flight.Grounded? <==> d.flight.Grounded?)
              && (!d.flight.Grounded? ==> Apply(o, d, step).flight.epoch == d.flight.epoch)
  {
  }

  /** Nobody joins a request whose refresh has begun. */
  lemma EnterKeepsFresh<T>(s: Sys<T>)
    requires Safe(s.p) && FreshEnough(s)
    ensures FreshEnough(s.(p := Entered(s.p, s.d.v.nextEpoch)))
  {
    var p' := Entered(s.p, s.d.v.nextEpoch);
    forall id: nat, r | id < |s.p.reqs| && s.p.pending != Some(id) && AllBefore(s.p, id, r)
      ensures AllBefore(p', id, r)
    {
    }
    if s.p.loop.Refreshing? && s.p.loop.origin.Request? {
      assert Holds(s.p.loop, s.p.loop.origin.id);
    }
    if s.p.loop.RefreshEnded? && s.p.loop.origin.Request? {
      assert Holds(s.p.loop, s.p.loop.origin.id);
    }
  }

  lemma LocalKeepsFresh<T(!new)>(o: Ops<T>, s: Sys<T>, step: Step<T>)
    requires FreshEnough(s) && May(s, Local(step))
    ensures FreshEnough(After(o, s, Local(step)))
  {
    CacheSideGrows(o, s.d, step);
  }

  lemma StartKeepsFresh<T(!new)>(o: Ops<T>, s: Sys<T>, origin: Origin)
    requires FreshEnough(s) && May(s, StartRefresh(origin))
    ensures FreshEnough(After(o, s, StartRefresh(origin)))
  {
  }

  lemma EndKeepsFresh<T(!new)>(o: Ops<T>, s: Sys<T>)
    requires SysInv(s) && May(s, EndRefresh)
    ensures FreshEnough(After(o, s, EndRefresh))
  {
    var s' := After(o, s, EndRefresh);
    CacheSideGrows(o, s.d, FinishRefresh);
    if Commits(o, s.d.flight.fetch) { assert s'.d.commits[|s'.d.commits| - 1] == s.d.flight.epoch; }
  }

  /** Steps of the protocol alone, which leave the cache and the calls' starts as they are. */
  lemma ProtocolKeepsFresh<T>(s: Sys<T>, p': Proto)
    requires FreshEnough(s) && Safe(s.p)
    requires |p'.calls| == |s.p.calls| && |p'.reqs| == |s.p.reqs|
    requires forall c | 0 <= c < |p'.calls| ::
               p'.calls[c].req == s.p.calls[c].req && p'.calls[c].entered == s.p.calls[c].entered
    requires forall id | 0 <= id < |p'.reqs| && p'.reqs[id].phase.Closed? && p'.reqs[id].phase.verdict.Fresh? ::
               || p'.reqs[id].phase == s.p.reqs[id].phase
               || s.p.loop == RefreshEnded(Request(id), p'.reqs[id].phase.verdict)
    requires p'.loop.Refreshing? || p'.loop.RefreshEnded? ==> p'.loop == s.p.loop
    requires s.p.loop.Refreshing? ==> p'.loop == s.p.loop
    ensures FreshEnough(s.(p := p'))
  {
    forall id: nat, r | AllBefore(s.p, id, r) ensures AllBefore(p', id, r) {
    }
  }

  lemma EventKeepsFresh<T(!new)>(o: Ops<T>, s: Sys<T>, e: Event<T>)
    requires SysInv(s) && May(s, e)
    ensures FreshEnough(After(o, s, e))
  {
    match e
    case Local(step) => LocalKeepsFresh(o, s, step);
    case StartRefresh(origin) => StartKeepsFresh(o, s, origin);
    case EndRefresh => EndKeepsFresh(o, s);
    case Enter => EnterKeepsFresh(s);
    case _ => ProtocolKeepsFresh(s, After(o, s, e).p);
  }

  lemma EventKeepsInv<T(!new)>(o: Ops<T>, s: Sys<T>, e: Event<T>)
    requires SysInv(s) && May(s, e)
    ensures SysInv(After(o, s, e))
  {
    EventKeepsSafe(o, s, e);
    EventKeepsFresh(o, s, e);
    match e
    case Local(step) => CacheRuns.StepKeepsInv(o, s.d, step);
    case StartRefresh(_) => CacheRuns.StepKeepsInv(o, s.d, BeginRefresh);
    case EndRefresh => CacheRuns.StepKeepsInv(o, s.d, FinishRefresh);
    case _ =>
  }

  lemma {:induction false} RunKeepsInv<T(!new)>(o: Ops<T>, s: Sys<T>, run: seq<Event<T>>)
    requires SysInv(s) && Possible(o, s, run)
    ensures SysInv(Outcome(o, s, run))
    decreases |run|
  {
    if run != [] {
      EventKeepsInv(o, s, run[0]);
      RunKeepsInv(o, After(o, s, run[0]), run[1..]);
    }
  }

  /** Whoever must still close a request: the loop that took it, or its sender, not yet returned. */
  ghost predicate OwnerAlive(p: Proto, id: nat) {
    && id < |p.reqs|
    && (Holds(p.loop, id)
        || (!p.reqs[id].phase.Accepted? && p.reqs[id].sender < |p.calls| && p.calls[p.reqs[id].sender].req == id
            && p.calls[p.reqs[id].sender].result.None?))
  }

  /** In every run: the pending request's refresh has not begun, no done channel is closed twice
      and none before its request is decided, and a call still waiting waits on a request that is
      closed already or still has an owner to close it. */
  lemma ProtocolSafety<T(!new)>(o: Ops<T>, s: Sys<T>, run: seq<Event<T>>)
    requires SysInit(s) && Possible(o, s, run)
    ensures
      var p := Outcome(o, s, run).p;
      && (p.pending.Some? ==> !Holds(p.loop, p.pending.value) || p.loop == Received(p.pending.value))
      && (forall id | 0 <= id < |p.reqs| :: p.reqs[id].closes == if p.reqs[id].phase.Closed? then 1 else 0)
      && (forall c | 0 <= c < |p.calls| && p.calls[c].result.None? ::
            p.calls[c].req < |p.reqs| && (p.reqs[p.calls[c].req].phase.Closed? || OwnerAlive(p, p.calls[c].req)))
  {
    RunKeepsInv(o, s, run);
    var p := Outcome(o, s, run).p;
    forall c | 0 <= c < |p.calls| && p.calls[c].result.None? && !p.reqs[p.calls[c].req].phase.Closed?
      ensures OwnerAlive(p, p.calls[c].req)
    {
      var id := p.calls[c].req;
      assert p.calls[p.reqs[id].sender].req == id;
    }
  }

  /** The refresh of request `id` has not panicked so far. */
  ghost predicate CalmFor<T>(s: Sys<T>, id: nat) {
    && (s.p.loop == Refreshing(Request(id)) && s.d.flight.Fetched? ==> !s.d.flight.fetch.Panicked?)
    && s.p.loop != RefreshEnded(Request(id), SwallowedPanic)
    && !InPhase(s.p, id, Closed(SwallowedPanic))
  }

  lemma StepKeepsCalm<T(!new)>(o: Ops<T>, s: Sys<T>, e: Event<T>, id: nat)
    requires CalmFor(s, id) && May(s, e) && e != Local(FetchReturns(Panicked))
    ensures CalmFor(After(o, s, e), id)
  {
    match e
    case Local(step) => assert s.d.flight.Fetched? ==> Apply(o, s.d, step).flight == s.d.flight;
    case _ =>
  }

  lemma {:induction false} RunKeepsCalm<T(!new)>(o: Ops<T>, s: Sys<T>, run: seq<Event<T>>, id: nat)
    requires CalmFor(s, id) && Possible(o, s, run) && Local(FetchReturns(Panicked)) !in run
    ensures CalmFor(Outcome(o, s, run), id)
    decreases |run|
  {
    if run != [] {
      StepKeepsCalm(o, s, run[0], id);
      RunKeepsCalm(o, After(o, s, run[0]), run[1..], id);
    }
  }

  /** An Invalidate that returned nil, sender or joiner, is followed by the commit of a refresh
      begun after the call, unless its own refresh was one whose callback panicked in this run. */
  lemma InvalidateFreshness<T(!new)>(o: Ops<T>, s: Sys<T>, run: seq<Event<T>>, c: nat)
    requires SysInit(s) && Possible(o, s, run)
    requires c < |Outcome(o, s, run).p.calls| && Outcome(o, s, run).p.calls[c].result == Some(true)
    ensures
      var s' := Outcome(o, s, run);
      var call := s'.p.calls[c];
      && call.req < |s'.p.reqs|
      && ((exists r :: r in s'.d.commits && r > call.entered)
          || (s'.p.reqs[call.req].phase == Closed(SwallowedPanic) && Local(FetchReturns(Panicked)) in run))
  {
    RunKeepsInv(o, s, run);
    var s' := Outcome(o, s, run);
    var call := s'.p.calls[c];
    var ph := s'.p.reqs[call.req].phase;
    if ph.verdict.Fresh? {
      assert ph.verdict.epoch in s'.d.commits && ph.verdict.epoch > call.entered;
    } else if Local(FetchReturns(Panicked)) !in run {
      RunKeepsCalm(o, s, run, call.req);
    }
  }

  /** In a run in which the refresh callback never panics, every Invalidate that returned nil was
      followed by the commit of a refresh begun after the call. */
  lemma NilMeansFresh<T(!new)>(o: Ops<T>, s: Sys<T>, run: seq<Event<T>>, c: nat)
    requires SysInit(s) && Possible(o, s, run) && Local(FetchReturns(Panicked)) !in run
    requires c < |Outcome(o, s, run).p.calls| && Outcome(o, s, run).p.calls[c].result == Some(true)
    ensures exists r :: r in Outcome(o, s, run).d.commits && r > Outcome(o, s, run).p.calls[c].entered
  {
    InvalidateFreshness(o, s, run, c);
  }

  lemma Prepend<T(!new)>(o: Ops<T>, s: Sys<T>, e: Event<T>, run: seq<Event<T>>)
    requires May(s, e) && Possible(o, After(o, s, e), run)
    ensures Possible(o, s, [e] + run) && Outcome(o, s, [e] + run) == Outcome(o, After(o, s, e), run)
  {
    assert ([e] + run)[1..] == run;
  }

  /** The requested refresh panics: taken up at `s`, it reports nil and commits nothing. */
  lemma PanicReportsNil<T(!new)>(o: Ops<T>, s: Sys<T>, id: nat) returns (run: seq<Event<T>>)
    requires s.p.loop == Cleared(id) && s.d.flight.Grounded? && id < |s.p.reqs|
    ensures Possible(o, s, run) && Outcome(o, s, run).p == MovedTo(s.p, id, Closed(SwallowedPanic)).(loop := Idle)
    ensures Outcome(o, s, run).d.commits == s.d.commits
  {
    var s1 := After(o, s, StartRefresh(Request(id)));
    var s2 := After(o, s1, Local(FetchReturns(Panicked)));
    var s3 := After(o, s2, EndRefresh);
    Prepend(o, s3, Complete, []);
    Prepend(o, s2, EndRefresh, [Complete] + []);
    Prepend(o, s1, Local(FetchReturns(Panicked)), [EndRefresh] + ([Complete] + []));
    run := [Local(FetchReturns(Panicked))] + ([EndRefresh] + ([Complete] + []));
    Prepend(o, s, StartRefresh(Request(id)), run);
    run := [StartRefresh(Request(id))] + run;
  }

  lemma {:induction false} Chain<T(!new)>(o: Ops<T>, s: Sys<T>, first: seq<Event<T>>, second: seq<Event<T>>)
    requires Possible(o, s, first) && Possible(o, Outcome(o, s, first), second)
    ensures Possible(o, s, first + second)
    ensures Outcome(o, s, first + second) == Outcome(o, Outcome(o, s, first), second)
    decreases |first|
  {
    if first == [] {
      assert first + second == second;
    } else {
      Chain(o, After(o, s, first[0]), first[1..], second);
      assert (first + second)[1..] == first[1..] + second;
    }
  }

  /** A call enters at an idle moment and its request is taken up. */
  lemma CallIsTakenUp<T(!new)>(o: Ops<T>, s: Sys<T>) returns (run: seq<Event<T>>)
    requires s.p.loop.Idle? && s.p.pending.None?
    ensures Possible(o, s, run) && Outcome(o, s, run).d == s.d
    ensures
      var p' := Outcome(o, s, run).p;
      && p'.loop == Cleared(|s.p.reqs|) && |p'.reqs| == |s.p.reqs| + 1
      && p'.calls == s.p.calls + [Call(|s.p.reqs|, s.d.v.nextEpoch, None)]
  {
    var id := |s.p.reqs|;
    var s1 := After(o, s, Enter);
    var s2 := After(o, s1, Receive(id));
    Prepend(o, s2, ClearPending, []);
    Prepend(o, s1, Receive(id), [ClearPending] + []);
    Prepend(o, s, Enter, [Receive(id)] + ([ClearPending] + []));
    run := [Enter] + ([Receive(id)] + ([ClearPending] + []));
  }

  lemma CommitsAreOld<T>(d: State<T>)
    requires CacheRuns.Inv(d)
    ensures forall r | r in d.commits :: r <= d.v.nextEpoch
  {
    forall i | 0 <= i < |d.commits| ensures d.commits[i] <= d.v.nextEpoch {
      assert d.commits[i] <= d.commits[|d.commits| - 1];
    }
  }

  /** The exception is real, from every idle state of every run: a callback that panics makes
      Invalidate return nil although no refresh begun after the call has committed. */
  lemma PanicBreaksFreshness<T(!new)>(o: Ops<T>, s: Sys<T>) returns (run: seq<Event<T>>)
    requires SysInv(s) && s.p.loop.Idle? && s.p.pending.None?
    ensures Possible(o, s, run)
    ensures
      var s', c := Outcome(o, s, run), |s.p.calls|;
      && c < |s'.p.calls| && s'.p.calls[c].result == Some(true)
      && forall r | r in s'.d.commits :: r <= s'.p.calls[c].entered
  {
    var id, c := |s.p.reqs|, |s.p.calls|;
    var first := CallIsTakenUp(o, s);
    var s3 := Outcome(o, s, first);
    assert s3.p.calls[c] == Call(id, s.d.v.nextEpoch, None);
    assert s3.d.flight.Grounded?;
    var second := PanicReportsNil(o, s3, id);
    Chain(o, s, first, second);
    var s4 := Outcome(o, s, first + second);
    Prepend(o, s4, Return(c), []);
    Chain(o, s, first + second, [Return(c)] + []);
    run := first + second + ([Return(c)] + []);
    CommitsAreOld(s.d);
  }

  // ---------------------------------------------------------------- the loop as the cache sees it

  /** The cache steps a run performs. */
  ghost function CacheSteps<T>(run: seq<Event<T>>): seq<Step<T>> {
    if run == [] then [] else
      (match run[0]
       case Local(step) => [step]
       case StartRefresh(_) => [BeginRefresh]
       case EndRefresh => [FinishRefresh]
       case _ => []) + CacheSteps(run[1..])
  }

  /** Every run of the protocol is, seen from the cache, a legal run of the cache machine, so all
      that holds of the latter's runs holds here. */
  lemma {:induction false} RunsProject<T(!new)>(o: Ops<T>, s: Sys<T>, run: seq<Event<T>>)
    requires Possible(o, s, run)
    ensures Legal(o, s.d, CacheSteps(run)) && Exec(o, s.d, CacheSteps(run)) == Outcome(o, s, run).d
    decreases |run|
  {
    if run != [] {
      RunsProject(o, After(o, s, run[0]), run[1..]);
      var rest := CacheSteps(run[1..]);
      assert run[0].Local? ==> CacheSteps(run)[1..] == rest;
      assert run[0].StartRefresh? || run[0].EndRefresh? ==> CacheSteps(run)[1..] == rest;
      if !run[0].Local? && !run[0].StartRefresh? && !run[0].EndRefresh? {
        assert CacheSteps(run) == rest;
      }
    }
  }

  /** A call once made keeps its request and the moment it entered. */
  lemma {:induction false} CallsStay<T(!new)>(o: Ops<T>, s: Sys<T>, run: seq<Event<T>>, c: nat)
    requires Possible(o, s, run) && c < |s.p.calls|
    ensures
      var calls := Outcome(o, s, run).p.calls;
      c < |calls| && calls[c].req == s.p.calls[c].req && calls[c].entered == s.p.calls[c].entered
    decreases |run|
  {
    if run != [] { CallsStay(o, After(o, s, run[0]), run[1..], c); }
  }

  /** Nobody's request has begun its refresh at the moment of entering. */
  lemma EnteredIsCalm<T(!new)>(o: Ops<T>, s: Sys<T>)
    requires SysInv(s) && May(s, Enter)
    ensures
      var s' := After(o, s, Enter);
      |s'.p.calls| == |s.p.calls| + 1 && CalmFor(s', s'.p.calls[|s.p.calls|].req)
  {
    assert s.p.loop.Refreshing? && s.p.loop.origin.Request? ==> Holds(s.p.loop, s.p.loop.origin.id);
    assert s.p.loop.RefreshEnded? && s.p.loop.origin.Request? ==> Holds(s.p.loop, s.p.loop.origin.id);
  }

  /** A nil of a call whose refresh did not panic is backed by a commit later than the call. */
  lemma CalmNilIsFresh<T>(s: Sys<T>, c: nat) returns (r: nat)
    requires SysInv(s) && c < |s.p.calls| && s.p.calls[c].result == Some(true) && CalmFor(s, s.p.calls[c].req)
    ensures r in s.d.commits && r > s.p.calls[c].entered
  {
    r := s.p.reqs[s.p.calls[c].req].phase.verdict.epoch;
  }

  lemma NilAfterEntering<T(!new)>(o: Ops<T>, s: Sys<T>, after: seq<Event<T>>, k: string, item: T)
    requires SysInv(s) && May(s, Enter) && Possible(o, After(o, s, Enter), after)
    requires Lookup(s.d.backend, k) == Some(item) && CacheRuns.Undisturbed(o, s.d, CacheSteps(after), k, item)
    requires Local(FetchReturns(Panicked)) !in after
    ensures
      var s', c := Outcome(o, After(o, s, Enter), after), |s.p.calls|;
      && c < |s'.p.calls|
      && (s'.p.calls[c].result == Some(true) ==>
            s'.d.v.cache.Some? && Lookup(s'.d.v.cache.value, k) == Some(item))
  {
    var s1, c := After(o, s, Enter), |s.p.calls|;
    var s' := Outcome(o, s1, after);
    EnteredIsCalm(o, s);
    CallsStay(o, s1, after, c);
    if s'.p.calls[c].result == Some(true) {
      EventKeepsInv(o, s, Enter);
      RunKeepsInv(o, s1, after);
      RunKeepsCalm(o, s1, after, s1.p.calls[c].req);
      var r := CalmNilIsFresh(s', c);
      RunsProject(o, s1, after);
      CacheRuns.LaterCommitShows(o, s.d, CacheSteps(after), k, item, r);
    }
  }

  /** A nil from Invalidate guarantees that the cache contains any new value. Say the backend holds
      `item` when a call enters, and from then on nothing else is written at its key, fetches are
      faithful and the callback does not panic. Then from the call's nil result on readers see `item`,
      whatever older local writes and refreshes were around. */
  lemma NilShowsNewValues<T(!new)>(
    o: Ops<T>, s: Sys<T>, before: seq<Event<T>>, after: seq<Event<T>>, k: string, item: T)
    requires SysInit(s) && Possible(o, s, before)
    requires
      var s0 := Outcome(o, s, before);
      && May(s0, Enter) && Possible(o, After(o, s0, Enter), after)
      && Lookup(s0.d.backend, k) == Some(item)
      && CacheRuns.Undisturbed(o, s0.d, CacheSteps(after), k, item)
      && Local(FetchReturns(Panicked)) !in after
    ensures
      var s0 := Outcome(o, s, before);
      var s', c := Outcome(o, After(o, s0, Enter), after), |s0.p.calls|;
      && c < |s'.p.calls|
      && (s'.p.calls[c].result == Some(true) ==>
            s'.d.v.cache.Some? && Lookup(s'.d.v.cache.value, k) == Some(item))
  {
    RunKeepsInv(o, s, before);
    NilAfterEntering(o, Outcome(o, s, before), after, k, item);
  }
}
