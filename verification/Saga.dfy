/** The saga runner: actions in order and, when one fails, compensations backwards. */
module Saga {
  import opened Common

  /** An effect on the world that may report an error. */
  type Effect<!S, !E> = S -> (S, Option<E>)

  datatype Action<!S, !E> = Action(name: string, action: Effect<S, E>, compensate: Option<Effect<S, E>>)

  datatype Invocation = Acted(index: nat) | Compensated(index: nat)

  /** The world once the first `i` actions have been called. */
  function Reached<S, E>(actions: seq<Action<S, E>>, s: S, i: nat): S
    requires i <= |actions|
  {
    if i == 0 then s else actions[i - 1].action(Reached(actions, s, i - 1)).0
  }

  /** What is yet to be run has no effect. */
  lemma {:induction false} PrefixReaches<S, E>(a: seq<Action<S, E>>, b: seq<Action<S, E>>, s: S, i: nat)
    requires i <= |a|
    ensures Reached(a + b, s, i) == Reached(a, s, i)
  {
    if i > 0 { PrefixReaches(a, b, s, i - 1); }
  }

  /** What the `i`-th action reports when it is its turn. */
  function Report<S, E>(actions: seq<Action<S, E>>, s: S, i: nat): Option<E>
    requires i < |actions|
  {
    actions[i].action(Reached(actions, s, i)).1
  }

  ghost predicate AllSucceed<S, E>(actions: seq<Action<S, E>>, s: S, n: nat)
    requires n <= |actions|
  {
    forall j | 0 <= j < n :: Report(actions, s, j).None?
  }

  /** Running `a` and then `b` is running `b` from the world in which `a` ended. */
  lemma {:induction false} OneAfterTheOther<S, E>(a: seq<Action<S, E>>, b: seq<Action<S, E>>, s: S, k: nat)
    requires k <= |b|
    ensures Reached(a + b, s, |a| + k) == Reached(b, Reached(a, s, |a|), k)
    ensures k < |b| ==> Report(a + b, s, |a| + k) == Report(b, Reached(a, s, |a|), k)
  {
    if k == 0 {
      PrefixReaches(a, b, s, |a|);
    } else {
      OneAfterTheOther(a, b, s, k - 1);
      assert (a + b)[|a| + k - 1] == b[k - 1];
    }
  }

  function ActedUpTo(n: nat): seq<Invocation> {
    seq(n, i requires 0 <= i < n => Acted(i))
  }

  /** Walking back from `j`: the world left, the compensations called, whether the last failed. */
  function Unwound<S, E>(actions: seq<Action<S, E>>, j: nat, s: S): (S, seq<Invocation>, bool)
    requires j <= |actions|
  {
    if j == 0 then (s, [], false)
    else if actions[j - 1].compensate.None? then Unwound(actions, j - 1, s)
    else
      var (s', err) := actions[j - 1].compensate.value(s);
      if err.Some? then (s', [Compensated(j - 1)], true)
      else
        var (s'', calls, failed) := Unwound(actions, j - 1, s');
        (s'', [Compensated(j - 1)] + calls, failed)
  }

  method Run<S, E>(actions: seq<Action<S, E>>, start: S) returns (s: S, err: Option<E>, calls: seq<Invocation>)
    ensures err.None? ==> AllSucceed(actions, start, |actions|)
    ensures err.None? ==> s == Reached(actions, start, |actions|) && calls == ActedUpTo(|actions|)
    ensures err.Some? ==> exists i: nat | i < |actions| ::
              && AllSucceed(actions, start, i) && Report(actions, start, i) == err
              && s == Unwound(actions, i, Reached(actions, start, i + 1)).0
              && calls == ActedUpTo(i + 1) + Unwound(actions, i, Reached(actions, start, i + 1)).1
  {
    s, err, calls := start, None, [];
    for i := 0 to |actions|
      invariant s == Reached(actions, start, i) && AllSucceed(actions, start, i) && calls == ActedUpTo(i)
    {
      var (s', failure) := actions[i].action(s);
      s, calls := s', calls + [Acted(i)];
      assert calls == ActedUpTo(i + 1);
      if failure.Some? {
        ghost var plan := Unwound(actions, i, s);
        ghost var before := calls;
        var j := i;
        while j > 0
          invariant 0 <= j <= i
          invariant var rest := Unwound(actions, j, s); rest.0 == plan.0 && calls + rest.1 == before + plan.1
        {
          j := j - 1;
          if actions[j].compensate.None? { continue; }
          var (undone, cerr) := actions[j].compensate.value(s);
          ghost var rest := Unwound(actions, j, undone).1;
          assert calls + [Compensated(j)] + rest == calls + ([Compensated(j)] + rest);
          s, calls := undone, calls + [Compensated(j)];
          if cerr.Some? { return s, failure, calls; }
        }
        return s, failure, calls;
      }
    }
  }

  // ---------------------------------------------------------------- what unwinding does

  /** Every compensation before `j`, last first. */
  function Compensations<S, E>(actions: seq<Action<S, E>>, j: nat): seq<Invocation>
    requires j <= |actions|
  {
    if j == 0 then []
    else (if actions[j - 1].compensate.Some? then [Compensated(j - 1)] else []) + Compensations(actions, j - 1)
  }

  /** The worlds in which the compensations that get called are called. */
  function CalledIn<S, E>(actions: seq<Action<S, E>>, j: nat, s: S): seq<S>
    requires j <= |actions|
  {
    if j == 0 then []
    else if actions[j - 1].compensate.None? then CalledIn(actions, j - 1, s)
    else
      var (s', err) := actions[j - 1].compensate.value(s);
      if err.Some? then [s] else [s] + CalledIn(actions, j - 1, s')
  }

  /** `c` is a compensation that, called in `s`, reports an error iff `fails`. */
  ghost predicate Reports<S, E>(actions: seq<Action<S, E>>, c: Invocation, s: S, fails: bool) {
    && c.Compensated? && c.index < |actions| && actions[c.index].compensate.Some?
    && (actions[c.index].compensate.value(s).1.Some? <==> fails)
  }

  /** The calls are the non-nil compensations before `j`, in reverse: all of them unless one fails. */
  lemma {:induction false} CalledArePrefix<S, E>(actions: seq<Action<S, E>>, j: nat, s: S)
    requires j <= |actions|
    ensures
      var (_, calls, failed) := Unwound(actions, j, s);
      calls <= Compensations(actions, j) && (!failed ==> calls == Compensations(actions, j))
  {
    if j > 0 {
      var all, rest := Compensations(actions, j), Compensations(actions, j - 1);
      if actions[j - 1].compensate.None? {
        assert all == rest;
        CalledArePrefix(actions, j - 1, s);
      } else {
        var (s', err) := actions[j - 1].compensate.value(s);
        assert all == [Compensated(j - 1)] + rest;
        if err.None? {
          CalledArePrefix(actions, j - 1, s');
          var (_, calls, _) := Unwound(actions, j - 1, s');
          assert [Compensated(j - 1)] + calls <= all;
        }
      }
    }
  }

  /** Called in these worlds, every compensation succeeds except for the last one, which does iff
      unwinding does. */
  ghost predicate OnlyLastFails<S, E>(
    actions: seq<Action<S, E>>, calls: seq<Invocation>, worlds: seq<S>, failed: bool)
  {
    && |worlds| == |calls|
    && (failed ==> calls != [])
    && forall m | 0 <= m < |calls| :: Reports(actions, calls[m], worlds[m], failed && m == |calls| - 1)
  }

  lemma OneMoreSucceeds<S, E>(actions: seq<Action<S, E>>, c: Invocation, s: S,
                              rest: seq<Invocation>, later: seq<S>, failed: bool)
    requires Reports(actions, c, s, false) && OnlyLastFails(actions, rest, later, failed)
    ensures OnlyLastFails(actions, [c] + rest, [s] + later, failed)
  {
    var calls, worlds := [c] + rest, [s] + later;
    forall m | 0 <= m < |calls| ensures Reports(actions, calls[m], worlds[m], failed && m == |calls| - 1) {
      if m > 0 { assert calls[m] == rest[m - 1] && worlds[m] == later[m - 1]; }
    }
  }

  lemma {:induction false} LastCalledFails<S, E>(actions: seq<Action<S, E>>, j: nat, s: S)
    requires j <= |actions|
    ensures
      var (_, calls, failed) := Unwound(actions, j, s);
      OnlyLastFails(actions, calls, CalledIn(actions, j, s), failed)
  {
    if j > 0 {
      if actions[j - 1].compensate.None? {
        LastCalledFails(actions, j - 1, s);
      } else {
        var (s', err) := actions[j - 1].compensate.value(s);
        if err.None? {
          LastCalledFails(actions, j - 1, s');
          var (_, rest, failed) := Unwound(actions, j - 1, s');
          OneMoreSucceeds(actions, Compensated(j - 1), s, rest, CalledIn(actions, j - 1, s'), failed);
        }
      }
    }
  }

  /** The compensations called are the non-nil ones before the failure, in reverse: all of them, each
      succeeding, or up to and including the first that fails. */
  lemma CompensationsCalled<S, E>(actions: seq<Action<S, E>>, j: nat, s: S)
    requires j <= |actions|
    ensures
      var (_, calls, failed) := Unwound(actions, j, s);
      var worlds := CalledIn(actions, j, s);
      && calls <= Compensations(actions, j)
      && (!failed ==> calls == Compensations(actions, j))
      && OnlyLastFails(actions, calls, worlds, failed)
  {
    CalledArePrefix(actions, j, s);
    LastCalledFails(actions, j, s);
  }

  /** Compensation undoes its action, an action without one changes nothing, in the states reached. */
  ghost predicate Undoes<S, E>(actions: seq<Action<S, E>>, start: S, i: nat)
    requires i < |actions|
  {
    var before, after := Reached(actions, start, i), Reached(actions, start, i + 1);
    match actions[i].compensate
    case Some(c) => c(after) == (before, None)
    case None => after == before
  }

  lemma {:induction false} UnwindingRestores<S, E>(actions: seq<Action<S, E>>, start: S, j: nat)
    requires j <= |actions| && forall i | 0 <= i < j :: Undoes(actions, start, i)
    ensures Unwound(actions, j, Reached(actions, start, j)).0 == start
    ensures !Unwound(actions, j, Reached(actions, start, j)).2
  {
    if j > 0 {
      assert Undoes(actions, start, j - 1);
      UnwindingRestores(actions, start, j - 1);
    }
  }

  /** A saga that fails leaves the world as it was and returns the failing action's error, if what
      fails changes nothing and what succeeded before is undone by its compensation. */
  method RunRestores<S, E>(actions: seq<Action<S, E>>, start: S) returns (s: S, err: Option<E>)
    requires forall i: nat | i < |actions| && AllSucceed(actions, start, i) ::
               if Report(actions, start, i).None? then Undoes(actions, start, i)
               else Reached(actions, start, i + 1) == Reached(actions, start, i)
    ensures err.Some? ==> s == start
    ensures err.Some? ==>
              exists i: nat | i < |actions| :: AllSucceed(actions, start, i) && Report(actions, start, i) == err
    ensures err.None? ==> AllSucceed(actions, start, |actions|) && s == Reached(actions, start, |actions|)
  {
    var calls;
    s, err, calls := Run(actions, start);
    if err.Some? {
      ghost var i: nat :| i < |actions| && AllSucceed(actions, start, i) && Report(actions, start, i) == err
        && s == Unwound(actions, i, Reached(actions, start, i + 1)).0;
      forall j: nat | j < i ensures Undoes(actions, start, j) {
        assert AllSucceed(actions, start, j) && Report(actions, start, j).None?;
      }
      UnwindingRestores(actions, start, i);
    }
  }
}
