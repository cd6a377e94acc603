/** What Run and the callers of Invalidate are told, from the refreshes a whole run went through. */
module InvalidateResults {
  import opened Common
  import opened CacheModel
  import opened InvalidateProtocol
  import CacheRuns

  /** A refresh that has ended: why it was run, its epoch, and how its callback ended. */
  datatype Attempt<T> = Attempt(origin: Origin, epoch: nat, fetch: Fetch<T>)

  ghost function Ending<T>(s: Sys<T>, e: Event<T>): seq<Attempt<T>>
    requires May(s, e)
  {
    if e.EndRefresh? then [Attempt(s.p.loop.origin, s.d.flight.epoch, s.d.flight.fetch)] else []
  }

  /** The refreshes that ended in a run, in order. */
  ghost function Attempts<T(!new)>(o: Ops<T>, s: Sys<T>, run: seq<Event<T>>): seq<Attempt<T>>
    requires Possible(o, s, run)
    decreases |run|
  {
    if run == [] then [] else Ending(s, run[0]) + Attempts(o, After(o, s, run[0]), run[1..])
  }

  /** It committed its data, or its callback panicked. */
  ghost predicate CommittedOrPanicked<T>(o: Ops<T>, a: Attempt<T>) {
    Commits(o, a.fetch) || a.fetch.Panicked?
  }

  ghost predicate Ended<T(!new)>(past: seq<Attempt<T>>, origin: Origin) {
    exists a :: a in past && a.origin == origin
  }

  /** The refresh for `origin` has ended with this verdict. */
  ghost predicate EndedAs<T(!new)>(o: Ops<T>, past: seq<Attempt<T>>, origin: Origin, v: Verdict) {
    exists a :: a in past && a.origin == origin && v == VerdictOf(o, a.epoch, a.fetch)
  }

  /** The refresh for `origin` has ended, and committed or panicked iff `ok`. */
  ghost predicate EndedWell<T(!new)>(o: Ops<T>, past: seq<Attempt<T>>, origin: Origin, ok: bool) {
    exists a :: a in past && a.origin == origin && (CommittedOrPanicked(o, a) <==> ok)
  }

  // ---------------------------------------------------------------- what holds along a run

  /** A request is closed with the verdict of its own refresh or by its sender's recovery, and before
      that neither has happened. */
  ghost predicate RequestTold<T(!new)>(
    o: Ops<T>, p: Proto, past: seq<Attempt<T>>, events: seq<Event<T>>, id: nat)
  {
    if id < |p.reqs| && p.reqs[id].phase.Closed? then
      var v := p.reqs[id].phase.verdict;
      if v.QueueClosed? then !Ended(past, Request(id)) && PanicCloses(id) in events
      else EndedAs(o, past, Request(id), v) && PanicCloses(id) !in events
    else
      && PanicCloses(id) !in events
      && if p.loop.RefreshEnded? && p.loop.origin == Request(id)
         then EndedAs(o, past, Request(id), p.loop.verdict)
         else !Ended(past, Request(id))
  }

  /** Run goes on iff its first refresh committed or panicked, and stops iff it is shut down. */
  ghost predicate BootTold<T(!new)>(o: Ops<T>, l: Loop, past: seq<Attempt<T>>, events: seq<Event<T>>) {
    && (l.Stopped? <==> Shutdown in events)
    && match l
       case Unstarted => !Ended(past, Boot)
       case Refreshing(Boot) => !Ended(past, Boot)
       case RefreshEnded(Boot, v) => EndedAs(o, past, Boot, v)
       case RunFailed => EndedWell(o, past, Boot, false)
       case _ => EndedWell(o, past, Boot, true)
  }

  /** Every origin but the ticker has at most one refresh. */
  ghost predicate OneEach<T>(past: seq<Attempt<T>>) {
    forall i, j | 0 <= i < j < |past| && !past[i].origin.Tick? :: past[i].origin != past[j].origin
  }

  /** A refresh is among the commits iff its data were fetched without conflict. */
  ghost predicate EpochsTold<T>(o: Ops<T>, d: State<T>, past: seq<Attempt<T>>) {
    forall a | a in past ::
      && a.epoch <= d.v.nextEpoch && (!d.flight.Grounded? ==> a.epoch < d.flight.epoch)
      && (a.epoch in d.commits <==> Commits(o, a.fetch))
  }

  lemma EndingAppended<T(!new)>(o: Ops<T>, s: Sys<T>, past: seq<Attempt<T>>, e: Event<T>, origin: Origin)
    requires May(s, e)
    ensures
      var now := past + Ending(s, e);
      var mine := e.EndRefresh? && s.p.loop.origin == origin;
      && (Ended(now, origin) <==> Ended(past, origin) || mine)
      && (forall v | EndedAs(o, past, origin, v) :: EndedAs(o, now, origin, v))
      && (forall ok | EndedWell(o, past, origin, ok) :: EndedWell(o, now, origin, ok))
      && (mine ==> EndedAs(o, now, origin, VerdictOf(o, s.d.flight.epoch, s.d.flight.fetch)))
  {
    var now := past + Ending(s, e);
    assert forall a :: a in now <==> a in past || a in Ending(s, e);
    if e.EndRefresh? { assert Ending(s, e)[0] in now; }
  }

  lemma StepKeepsRequest<T(!new)>(
    o: Ops<T>, s: Sys<T>, past: seq<Attempt<T>>, events: seq<Event<T>>, e: Event<T>, id: nat)
    requires Safe(s.p) && May(s, e) && RequestTold(o, s.p, past, events, id)
    ensures RequestTold(o, After(o, s, e).p, past + Ending(s, e), events + [e], id)
  {
    assert PanicCloses(id) in events + [e] <==> PanicCloses(id) in events || e == PanicCloses(id);
    EndingAppended(o, s, past, e, Request(id));
  }

  /** A verdict tells whether its refresh committed or panicked. */
  lemma VerdictTells<T(!new)>(o: Ops<T>, past: seq<Attempt<T>>, origin: Origin, v: Verdict)
    requires EndedAs(o, past, origin, v)
    ensures !v.QueueClosed? && EndedWell(o, past, origin, NilError(v))
  {
    var a :| a in past && a.origin == origin && v == VerdictOf(o, a.epoch, a.fetch);
    assert CommittedOrPanicked(o, a) <==> NilError(v);
  }

  lemma StepKeepsBoot<T(!new)>(o: Ops<T>, s: Sys<T>, past: seq<Attempt<T>>, events: seq<Event<T>>, e: Event<T>)
    requires May(s, e) && BootTold(o, s.p.loop, past, events)
    ensures BootTold(o, After(o, s, e).p.loop, past + Ending(s, e), events + [e])
  {
    assert Shutdown in events + [e] <==> Shutdown in events || e == Shutdown;
    EndingAppended(o, s, past, e, Boot);
    if e.Complete? && s.p.loop.origin.Boot? { VerdictTells(o, past, Boot, s.p.loop.verdict); }
  }

  lemma CommitsPrecedeFlight<T>(d: State<T>)
    requires CacheRuns.Inv(d) && !d.flight.Grounded?
    ensures forall r | r in d.commits :: r < d.flight.epoch
  {
    forall i | 0 <= i < |d.commits| ensures d.commits[i] < d.flight.epoch {
      assert d.commits[i] <= d.commits[|d.commits| - 1];
    }
  }

  lemma StepKeepsEpochs<T(!new)>(o: Ops<T>, s: Sys<T>, past: seq<Attempt<T>>, e: Event<T>)
    requires SysInv(s) && May(s, e) && EpochsTold(o, s.d, past)
    ensures EpochsTold(o, After(o, s, e).d, past + Ending(s, e))
  {
    CommitsAreOld(s.d);
    var d' := After(o, s, e).d;
    if e.EndRefresh? {
      CommitsPrecedeFlight(s.d);
      assert d'.commits == if Commits(o, s.d.flight.fetch) then s.d.commits + [s.d.flight.epoch] else s.d.commits;
    }
  }

  lemma StepKeepsOneEach<T(!new)>(o: Ops<T>, s: Sys<T>, past: seq<Attempt<T>>, events: seq<Event<T>>, e: Event<T>)
    requires Safe(s.p) && May(s, e) && OneEach(past) && BootTold(o, s.p.loop, past, events)
    requires e.EndRefresh? && s.p.loop.origin.Request? ==> RequestTold(o, s.p, past, events, s.p.loop.origin.id)
    ensures OneEach(past + Ending(s, e))
  {
    if e.EndRefresh? && !s.p.loop.origin.Tick? {
      if s.p.loop.origin.Request? { assert Holds(s.p.loop, s.p.loop.origin.id); }
      assert !Ended(past, s.p.loop.origin);
    }
  }

  ghost predicate Told<T(!new)>(o: Ops<T>, s: Sys<T>, past: seq<Attempt<T>>, events: seq<Event<T>>) {
    && (forall id: nat :: RequestTold(o, s.p, past, events, id))
    && BootTold(o, s.p.loop, past, events) && OneEach(past) && EpochsTold(o, s.d, past)
  }

  lemma StepKeepsTold<T(!new)>(o: Ops<T>, s: Sys<T>, past: seq<Attempt<T>>, events: seq<Event<T>>, e: Event<T>)
    requires SysInv(s) && May(s, e) && Told(o, s, past, events)
    ensures Told(o, After(o, s, e), past + Ending(s, e), events + [e])
  {
    forall id: nat ensures RequestTold(o, After(o, s, e).p, past + Ending(s, e), events + [e], id) {
      StepKeepsRequest(o, s, past, events, e, id);
    }
    StepKeepsBoot(o, s, past, events, e);
    StepKeepsOneEach(o, s, past, events, e);
    StepKeepsEpochs(o, s, past, e);
  }

  lemma {:induction false} RunKeepsTold<T(!new)>(
    o: Ops<T>, s: Sys<T>, past: seq<Attempt<T>>, events: seq<Event<T>>, run: seq<Event<T>>)
    requires SysInv(s) && Told(o, s, past, events) && Possible(o, s, run)
    ensures Told(o, Outcome(o, s, run), past + Attempts(o, s, run), events + run)
    decreases |run|
  {
    if run == [] {
      assert past + Attempts(o, s, run) == past && events + run == events;
    } else {
      var s1 := After(o, s, run[0]);
      EventKeepsInv(o, s, run[0]);
      StepKeepsTold(o, s, past, events, run[0]);
      RunKeepsTold(o, s1, past + Ending(s, run[0]), events + [run[0]], run[1..]);
      Regrouped(past, Ending(s, run[0]), Attempts(o, s1, run[1..]));
      Regrouped(events, [run[0]], run[1..]);
      assert [run[0]] + run[1..] == run;
    }
  }

  lemma RunIsTold<T(!new)>(o: Ops<T>, s: Sys<T>, run: seq<Event<T>>)
    requires SysInit(s) && Possible(o, s, run)
    ensures Told(o, Outcome(o, s, run), Attempts(o, s, run), run)
  {
    RunKeepsTold(o, s, [], [], run);
    assert [] + Attempts(o, s, run) == Attempts(o, s, run) && [] + run == run;
  }

  // ---------------------------------------------------------------- the results

  /** At most one refresh serves a request, so it cannot have ended both ways. */
  lemma EndedOneWay<T(!new)>(o: Ops<T>, past: seq<Attempt<T>>, origin: Origin)
    requires OneEach(past) && !origin.Tick?
    ensures !(EndedWell(o, past, origin, true) && EndedWell(o, past, origin, false))
  {
    forall a, b | a in past && b in past && a.origin == origin == b.origin ensures a == b {
      var i, j :| 0 <= i < |past| && 0 <= j < |past| && past[i] == a && past[j] == b;
    }
  }

  lemma CallIsTold<T(!new)>(o: Ops<T>, s: Sys<T>, past: seq<Attempt<T>>, run: seq<Event<T>>, c: nat)
    requires Safe(s.p) && Told(o, s, past, run) && c < |s.p.calls| && s.p.calls[c].result.Some?
    ensures
      var call := s.p.calls[c];
      && (call.result == Some(true) <==> EndedWell(o, past, Request(call.req), true))
      && (call.result == Some(false) <==>
            EndedWell(o, past, Request(call.req), false) || PanicCloses(call.req) in run)
  {
    var call := s.p.calls[c];
    var v := s.p.reqs[call.req].phase.verdict;
    assert RequestTold(o, s.p, past, run, call.req);
    if !v.QueueClosed? {
      VerdictTells(o, past, Request(call.req), v);
      EndedOneWay(o, past, Request(call.req));
    }
  }

  /** What every call of Invalidate returns, in every run. At most one refresh serves a request. The
      calls on it that have returned were told nil iff that refresh committed its data, so that its
      epoch is among the commits, or panicked; and an error iff it failed or met a conflict, or the
      queue was closed on the sender. */
  lemma InvalidateReturns<T(!new)>(o: Ops<T>, s: Sys<T>, run: seq<Event<T>>, c: nat)
    requires SysInit(s) && Possible(o, s, run)
    requires c < |Outcome(o, s, run).p.calls| && Outcome(o, s, run).p.calls[c].result.Some?
    ensures
      var s', past := Outcome(o, s, run), Attempts(o, s, run);
      var call := s'.p.calls[c];
      && OneEach(past)
      && (forall a | a in past :: a.epoch in s'.d.commits <==> Commits(o, a.fetch))
      && (call.result == Some(true) <==>
            exists a :: a in past && a.origin == Request(call.req) && (Commits(o, a.fetch) || a.fetch.Panicked?))
      && (call.result == Some(false) <==>
            || (exists a :: a in past && a.origin == Request(call.req) && !Commits(o, a.fetch) && !a.fetch.Panicked?)
            || PanicCloses(call.req) in run)
  {
    RunKeepsInv(o, s, run);
    RunIsTold(o, s, run);
    CallIsTold(o, Outcome(o, s, run), Attempts(o, s, run), run, c);
  }

  /** In every run, once the first refresh is over, Run has failed iff that refresh neither committed nor
      panicked, and serves iff it did; and the loop has stopped iff it was shut down. */
  lemma RunReturns<T(!new)>(o: Ops<T>, s: Sys<T>, run: seq<Event<T>>)
    requires SysInit(s) && Possible(o, s, run)
    ensures
      var l, past := Outcome(o, s, run).p.loop, Attempts(o, s, run);
      var booting := l.Unstarted? || ((l.Refreshing? || l.RefreshEnded?) && l.origin.Boot?);
      && (l.RunFailed? <==>
            !booting && exists a :: a in past && a.origin.Boot? && !Commits(o, a.fetch) && !a.fetch.Panicked?)
      && (Serving(l) <==>
            !booting && exists a :: a in past && a.origin.Boot? && (Commits(o, a.fetch) || a.fetch.Panicked?))
      && (l.Stopped? <==> Shutdown in run)
  {
    RunIsTold(o, s, run);
    EndedOneWay(o, Attempts(o, s, run), Boot);
  }
}
