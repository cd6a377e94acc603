/**
 From a provisioner's error to what the user sees: the error tree, the condition the manager
 derives from it, the requeue decision, and the coarse status of the API.
 */
module ProvisioningStatus {
  import opened Common

  datatype Sentinel = ErrYield | ErrNotFound | ErrTerminal | ErrUserActionRequired | Canceled

  /** Any error value: a sentinel, opaque text, a typed provisioning error, or errors wrapped,
      singly under operator prose or several at once. */
  datatype Error =
    | Plain(sentinel: Sentinel)
    | Untyped(text: string)
    | Typed(disposition: Sentinel, reason: string, message: string)
    | Wrap(prose: string, inner: Error)
    | Join(members: seq<Error>)

  const REASON_PROVISIONING := "Provisioning"
  const REASON_PROVISIONED := "Provisioned"
  const REASON_ERRORED := "Errored"
  const REASON_DEPROVISIONING := "Deprovisioning"
  const REASON_DEPROVISIONED := "Deprovisioned"
  const REASON_DEPENDENCY_NOT_READY := "DependencyNotReady"
  const REASON_DEPENDENCY_FAILED := "DependencyFailed"
  const REASON_DEPENDENCY_NOT_FOUND := "DependencyNotFound"

  function Yield(reason: string, message: string): Error {
    Typed(ErrYield, reason, message)
  }

  function Terminal(reason: string, message: string): Error {
    Typed(ErrTerminal, reason, message)
  }

  function UserActionRequired(reason: string, message: string): Error {
    Typed(ErrUserActionRequired, reason, message)
  }

  function DependencyNotReady(resource: string): Error {
    Yield(REASON_DEPENDENCY_NOT_READY, resource + " is not ready")
  }

  function DependencyFailed(resource: string): Error {
    Yield(REASON_DEPENDENCY_FAILED, resource + " has failed")
  }

  function DependencyNotFound(resource: string): Error {
    Terminal(REASON_DEPENDENCY_NOT_FOUND, resource + " does not exist")
  }

  /** errors.Is against a sentinel. */
  predicate Is(e: Error, s: Sentinel) {
    match e
    case Plain(x) => x == s
    case Untyped(_) => false
    case Typed(d, _, _) => d == s
    case Wrap(_, inner) => Is(inner, s)
    case Join(members) => exists m | m in members :: Is(m, s)
  }

  /** errors.As for the typed error: the first one met depth first. */
  function As(e: Error): (t: Option<Error>)
    ensures t.Some? ==> t.value.Typed?
  {
    match e
    case Plain(_) => None
    case Untyped(_) => None
    case Typed(_, _, _) => Some(e)
    case Wrap(_, inner) => As(inner)
    case Join(members) => AsFirst(members)
  }

  function AsFirst(members: seq<Error>): (t: Option<Error>)
    ensures t.Some? ==> t.value.Typed?
  {
    if members == [] then None
    else if As(members[0]).Some? then As(members[0])
    else AsFirst(members[1..])
  }

  predicate IsTerminal(e: Error) {
    Is(e, ErrTerminal) || Is(e, ErrUserActionRequired)
  }

  // ---------------------------------------------------------------- what the searches find

  /** The errors at the tips of a tree, depth first. */
  function Tips(e: Error): seq<Error>
    decreases e, 1
  {
    match e
    case Wrap(_, inner) => Tips(inner)
    case Join(members) => TipsOf(members)
    case _ => [e]
  }

  function TipsOf(members: seq<Error>): seq<Error>
    decreases members, 0
  {
    if members == [] then [] else Tips(members[0]) + TipsOf(members[1..])
  }

  /** `t` is the first typed error in the sequence, or there is none. */
  ghost predicate FirstTyped(tips: seq<Error>, t: Option<Error>) {
    match t
    case None => forall x | x in tips :: !x.Typed?
    case Some(x) => exists i :: 0 <= i < |tips| && tips[i] == x && x.Typed? && forall j | 0 <= j < i :: !tips[j].Typed?
  }

  lemma FirstTypedConcat(a: seq<Error>, b: seq<Error>, t: Option<Error>, u: Option<Error>)
    requires FirstTyped(a, t) && FirstTyped(b, u)
    ensures FirstTyped(a + b, if t.Some? then t else u)
  {
    if t.Some? {
      var i :| 0 <= i < |a| && a[i] == t.value && forall j | 0 <= j < i :: !a[j].Typed?;
      assert (a + b)[i] == t.value;
    } else if u.Some? {
      var i :| 0 <= i < |b| && b[i] == u.value && forall j | 0 <= j < i :: !b[j].Typed?;
      assert (a + b)[|a| + i] == u.value;
      forall j | 0 <= j < |a| + i ensures !(a + b)[j].Typed? {
        if j < |a| { assert a[j] in a; }
      }
    }
  }

  /** errors.As finds the first typed error of the tree, depth first, and none only if there is none. */
  lemma {:induction false} AsFindsFirst(e: Error)
    ensures FirstTyped(Tips(e), As(e))
    decreases e, 1
  {
    match e
    case Wrap(_, inner) => AsFindsFirst(inner);
    case Join(members) => AsFirstFindsFirst(members);
    case _ => assert Tips(e)[0] == e;
  }

  lemma {:induction false} AsFirstFindsFirst(members: seq<Error>)
    ensures FirstTyped(TipsOf(members), AsFirst(members))
    decreases members, 0
  {
    if members != [] {
      AsFindsFirst(members[0]);
      AsFirstFindsFirst(members[1..]);
      FirstTypedConcat(Tips(members[0]), TipsOf(members[1..]), As(members[0]), AsFirst(members[1..]));
    }
  }

  /** Some error in the sequence is the sentinel or has it as its disposition. */
  ghost predicate Carried(tips: seq<Error>, s: Sentinel) {
    exists x :: x in tips && (x == Plain(s) || (x.Typed? && x.disposition == s))
  }

  lemma CarriedConcat(a: seq<Error>, b: seq<Error>, s: Sentinel)
    ensures Carried(a + b, s) <==> Carried(a, s) || Carried(b, s)
  {
    assert forall x :: x in a + b <==> x in a || x in b;
  }

  /** errors.Is finds a sentinel iff some tip of the tree carries it. */
  lemma {:induction false} IsFindsAny(e: Error, s: Sentinel)
    ensures Is(e, s) <==> Carried(Tips(e), s)
    decreases e, 1
  {
    match e {
      case Wrap(_, inner) => IsFindsAny(inner, s);
      case Join(members) => AnyMemberIs(members, s);
      case _ => assert e in Tips(e);
    }
  }

  lemma {:induction false} AnyMemberIs(members: seq<Error>, s: Sentinel)
    ensures (exists m | m in members :: Is(m, s)) <==> Carried(TipsOf(members), s)
    decreases members, 0
  {
    if members != [] {
      IsFindsAny(members[0], s);
      AnyMemberIs(members[1..], s);
      CarriedConcat(Tips(members[0]), TipsOf(members[1..]), s);
      assert members == [members[0]] + members[1..];
    }
  }

  // ---------------------------------------------------------------- condition and requeue

  datatype Condition = Condition(status: bool, reason: string, message: string)

  /** What a pass that went through `tips` must leave on the condition: nothing after a cancellation
      that no yield accompanies, the reason and message of the first typed error if there is one, and
      otherwise the fixed words for a wait or for any other failure, retried or not. */
  ghost predicate Surfaces(tips: seq<Error>, deprovision: bool, c: Option<Condition>) {
    && (c.None? <==> Carried(tips, Canceled) && !Carried(tips, ErrYield))
    && (c.Some? ==> !c.value.status)
    && (c.Some? ==> forall i | 0 <= i < |tips| && tips[i].Typed? && (forall j | 0 <= j < i :: !tips[j].Typed?) ::
          c.value.reason == tips[i].reason && c.value.message == tips[i].message)
    && (c.Some? && (forall x | x in tips :: !x.Typed?) ==>
          (c.value.reason, c.value.message) ==
          if !Carried(tips, ErrYield) then ("Errored", "an unexpected error occurred")
          else if deprovision then ("Deprovisioning", "deprovisioning")
          else ("Provisioning", "provisioning"))
  }

  /** The same for any outcome: a nil error shows as done. */
  ghost predicate ShowsOutcome(err: Option<Error>, deprovision: bool, c: Option<Condition>) {
    match err
    case Some(e) => Surfaces(Tips(e), deprovision, c)
    case None =>
      c == Some(if deprovision then Condition(true, "Deprovisioned", "deprovisioned")
                else Condition(true, "Provisioned", "provisioned"))
  }

  /** The generic part of a condition, from the disposition alone; none for a cancelled pass. */
  function Generic(err: Option<Error>, deprovision: bool): Option<Condition> {
    if err.None? then
      Some(if deprovision then Condition(true, REASON_DEPROVISIONED, "deprovisioned")
           else Condition(true, REASON_PROVISIONED, "provisioned"))
    else if Is(err.value, ErrYield) then
      Some(if deprovision then Condition(false, REASON_DEPROVISIONING, "deprovisioning")
           else Condition(false, REASON_PROVISIONING, "provisioning"))
    else if Is(err.value, Canceled) then None
    else Some(Condition(false, REASON_ERRORED, "an unexpected error occurred"))
  }

  /** A typed error replaces reason and message and leaves the status alone. */
  function Enriched(c: Condition, err: Option<Error>): Condition {
    if err.Some? && As(err.value).Some? then
      c.(reason := As(err.value).value.reason, message := As(err.value).value.message)
    else c
  }

  /** What a pass leaves on the Available condition; none when it must not be touched. */
  function Derived(err: Option<Error>, deprovision: bool): Option<Condition> {
    var c := Generic(err, deprovision);
    if c.Some? then Some(Enriched(c.value, err)) else None
  }

  /** For every error tree, the condition is the one its tips call for. */
  lemma DerivedShowsOutcome(err: Option<Error>, deprovision: bool)
    ensures ShowsOutcome(err, deprovision, Derived(err, deprovision))
  {
    if err.Some? {
      AsFindsFirst(err.value);
      IsFindsAny(err.value, ErrYield);
      IsFindsAny(err.value, Canceled);
    }
  }

  /** The reconciler's own derivation, which overwrites status, reason and message as it learns more. */
  method DeriveCondition(err: Option<Error>, deprovision: bool) returns (c: Option<Condition>)
    ensures c == Derived(err, deprovision) && ShowsOutcome(err, deprovision, c)
    ensures c.Some? ==> (c.value.status <==> err.None?)
    ensures c.None? <==> err.Some? && Is(err.value, Canceled) && !Is(err.value, ErrYield)
  {
    DerivedShowsOutcome(err, deprovision);
    var status, reason, message := true, REASON_PROVISIONED, "provisioned";
    if err.None? {
      if deprovision { reason, message := REASON_DEPROVISIONED, "deprovisioned"; }
    } else if Is(err.value, ErrYield) {
      status, reason, message := false, REASON_PROVISIONING, "provisioning";
      if deprovision { reason, message := REASON_DEPROVISIONING, "deprovisioning"; }
    } else if Is(err.value, Canceled) {
      return None;
    } else {
      status, reason, message := false, REASON_ERRORED, "an unexpected error occurred";
    }
    if err.Some? {
      var typed := As(err.value);
      if typed.Some? { reason, message := typed.value.reason, typed.value.message; }
    }
    return Some(Condition(status, reason, message));
  }

  /** What reconcileNormal tells the work queue. Parked and complete both return an empty result. */
  datatype Requeue = Complete | Parked | Retry

  function NormalRequeue(err: Option<Error>): Requeue {
    if err.None? then Complete else if IsTerminal(err.value) then Parked else Retry
  }

  /** Read off the tips: complete iff there is no error, parked iff some tip is terminal or waits for
      the user, and retried in every other case, such as an untyped error. */
  lemma RequeueByTips(err: Option<Error>)
    ensures NormalRequeue(err).Complete? <==> err.None?
    ensures NormalRequeue(err).Parked? <==>
            err.Some? && (Carried(Tips(err.value), ErrTerminal) || Carried(Tips(err.value), ErrUserActionRequired))
  {
    if err.Some? {
      IsFindsAny(err.value, ErrTerminal);
      IsFindsAny(err.value, ErrUserActionRequired);
    }
  }

  // ---------------------------------------------------------------- the API's view

  datatype Coarse = Pending | Provisioning | Provisioned | Deprovisioning | Errored

  function ConvertStatusCondition(deleting: bool, hasConditions: bool, condition: Option<Condition>): (r: Coarse)
    ensures deleting ==> r.Deprovisioning?
    ensures !deleting && !hasConditions ==> r.Provisioned?
  {
    if deleting then Deprovisioning
    else if !hasConditions then Provisioned
    else if condition.None? then Pending
    else
      var reason := condition.value.reason;
      if reason == REASON_PROVISIONED then Provisioned
      else if reason in [REASON_ERRORED, REASON_DEPENDENCY_NOT_FOUND] then Errored
      else if reason in [REASON_DEPROVISIONED, REASON_DEPROVISIONING] then Deprovisioning
      else Provisioning
  }

  /** The coarse status of a live object once a provisioning pass ended with `err`. */
  function CoarseAfter(err: Option<Error>, prior: Option<Condition>): Coarse {
    var c := Derived(err, false);
    ConvertStatusCondition(false, true, if c.Some? then c else prior)
  }

  // ---------------------------------------------------------------- non-interference

  /** The error with all operator-only text blanked out. */
  function Redacted(e: Error): Error {
    match e
    case Plain(_) => e
    case Untyped(_) => Untyped("")
    case Typed(_, _, _) => e
    case Wrap(_, inner) => Wrap("", Redacted(inner))
    case Join(members) => Join(RedactedAll(members))
  }

  function RedactedAll(members: seq<Error>): (r: seq<Error>)
    ensures |r| == |members|
    ensures forall i | 0 <= i < |members| :: r[i] == Redacted(members[i])
  {
    if members == [] then [] else [Redacted(members[0])] + RedactedAll(members[1..])
  }

  lemma {:induction false} RedactionKeepsIs(e: Error, s: Sentinel)
    ensures Is(Redacted(e), s) <==> Is(e, s)
  {
    match e
    case Wrap(_, inner) => RedactionKeepsIs(inner, s);
    case Join(members) =>
      var redacted := RedactedAll(members);
      forall i | 0 <= i < |members| ensures Is(redacted[i], s) <==> Is(members[i], s) {
        RedactionKeepsIs(members[i], s);
      }
      if Is(e, s) {
        var m :| m in members && Is(m, s);
        var i :| 0 <= i < |members| && members[i] == m;
        assert redacted[i] in redacted;
      }
    case _ =>
  }

  lemma {:induction false} RedactionKeepsAs(e: Error)
    ensures As(Redacted(e)) == As(e)
    decreases e, 1
  {
    match e
    case Wrap(_, inner) => RedactionKeepsAs(inner);
    case Join(members) => RedactionKeepsAsFirst(members);
    case _ =>
  }

  lemma {:induction false} RedactionKeepsAsFirst(members: seq<Error>)
    ensures AsFirst(RedactedAll(members)) == AsFirst(members)
    decreases members, 0
  {
    if members != [] {
      RedactionKeepsAs(members[0]);
      RedactionKeepsAsFirst(members[1..]);
      assert RedactedAll(members)[1..] == RedactedAll(members[1..]);
    }
  }

  /** Error trees that differ only in wrap prose and untyped text are indistinguishable in the
      condition, in both directions, and in the requeue decision. */
  lemma NonInterference(e: Error, f: Error, deprovision: bool)
    requires Redacted(e) == Redacted(f)
    ensures Derived(Some(e), deprovision) == Derived(Some(f), deprovision)
    ensures NormalRequeue(Some(e)) == NormalRequeue(Some(f))
  {
    RedactionKeepsAs(e);
    RedactionKeepsAs(f);
    forall s ensures Is(e, s) <==> Is(f, s) {
      RedactionKeepsIs(e, s);
      RedactionKeepsIs(f, s);
    }
    assert Is(e, ErrYield) == Is(f, ErrYield) && Is(e, Canceled) == Is(f, Canceled);
    assert Is(e, ErrTerminal) == Is(f, ErrTerminal) && Is(e, ErrUserActionRequired) == Is(f, ErrUserActionRequired);
  }

  // ---------------------------------------------------------------- agreement of the two readers

  /** A chain of wraps around one base error. */
  function Base(e: Error): Option<Error> {
    match e
    case Wrap(_, inner) => Base(inner)
    case Join(_) => None
    case _ => Some(e)
  }

  /** The bases a provisioner is meant to return: sentinels, untyped errors, dependency errors. */
  ghost predicate Sanctioned(base: Error) {
    || base.Plain?
    || base.Untyped?
    || exists r :: base == DependencyNotReady(r) || base == DependencyFailed(r) || base == DependencyNotFound(r)
  }

  lemma {:induction false} ChainReadsAsBase(e: Error)
    requires Base(e).Some?
    ensures As(e) == As(Base(e).value)
    ensures forall s :: Is(e, s) <==> Is(Base(e).value, s)
  {
    if e.Wrap? { ChainReadsAsBase(e.inner); }
  }

  /** Success shows as provisioned, a yield as provisioning and a parked failure as an error, for
      every chain of wraps around a sanctioned base. */
  lemma StatusAgreesWithRequeue(err: Option<Error>, prior: Option<Condition>)
    requires err.Some? ==> Base(err.value).Some? && Sanctioned(Base(err.value).value)
    ensures NormalRequeue(err).Complete? ==> CoarseAfter(err, prior) == Provisioned
    ensures NormalRequeue(err).Parked? ==> CoarseAfter(err, prior) == Errored
    ensures err.Some? && Is(err.value, ErrYield) ==>
              NormalRequeue(err).Retry? && CoarseAfter(err, prior) == Provisioning
  {
    if err.Some? { ChainReadsAsBase(err.value); }
  }

  /** A failure of which nothing is typed, that neither waits nor was cancelled, shows as an error with
      the fixed message, whether it is parked or retried. */
  lemma PlainFailureShowsError(e: Error, prior: Option<Condition>)
    requires forall x | x in Tips(e) :: !x.Typed?
    requires !Carried(Tips(e), ErrYield) && !Carried(Tips(e), Canceled)
    ensures Derived(Some(e), false) == Some(Condition(false, "Errored", "an unexpected error occurred"))
    ensures CoarseAfter(Some(e), prior) == Errored
  {
    DerivedShowsOutcome(Some(e), false);
  }

  /** What the dependency errors show under any wraps: a dependency that may still come or recover is
      waited for, by name, and one that does not exist is an error and parked. */
  lemma DependenciesShow(e: Error, resource: string, prior: Option<Condition>)
    ensures Base(e) == Some(DependencyNotReady(resource)) ==>
              && Derived(Some(e), false) == Some(Condition(false, "DependencyNotReady", resource + " is not ready"))
              && NormalRequeue(Some(e)).Retry? && CoarseAfter(Some(e), prior) == Provisioning
    ensures Base(e) == Some(DependencyFailed(resource)) ==>
              && Derived(Some(e), false) == Some(Condition(false, "DependencyFailed", resource + " has failed"))
              && NormalRequeue(Some(e)).Retry? && CoarseAfter(Some(e), prior) == Provisioning
    ensures Base(e) == Some(DependencyNotFound(resource)) ==>
              && Derived(Some(e), false) == Some(Condition(false, "DependencyNotFound", resource + " does not exist"))
              && NormalRequeue(Some(e)).Parked? && CoarseAfter(Some(e), prior) == Errored
  {
    if Base(e).Some? { ChainReadsAsBase(e); }
  }

  /** For an arbitrary error tree the two agree on a parked failure exactly when what surfaces is a
      reason the API counts as an error: the first typed error's if there is one, and otherwise the
      generic one, which a yield elsewhere in the tree takes away. A cancellation in the tree leaves
      the earlier condition standing. */
  lemma ParkedShowsErrorIff(e: Error, prior: Option<Condition>)
    requires IsTerminal(e)
    ensures CoarseAfter(Some(e), prior) == Errored <==>
            if Is(e, Canceled) && !Is(e, ErrYield) then ConvertStatusCondition(false, true, prior) == Errored
            else if As(e).Some? then As(e).value.reason in [REASON_ERRORED, REASON_DEPENDENCY_NOT_FOUND]
            else !Is(e, ErrYield)
  {
  }

  /** Two parked failures the API shows as still provisioning. */
  lemma ParkedAsProvisioning(prior: Option<Condition>)
    ensures
      var joined := Join([Plain(ErrYield), Plain(ErrTerminal)]);
      NormalRequeue(Some(joined)).Parked? && CoarseAfter(Some(joined), prior) == Provisioning
    ensures
      var named := UserActionRequired("QuotaExceeded", "out of quota");
      NormalRequeue(Some(named)).Parked? && CoarseAfter(Some(named), prior) == Provisioning
  {
    var members := [Plain(ErrYield), Plain(ErrTerminal)];
    assert members[0] in members && members[1] in members;
    assert Is(members[0], ErrYield) && Is(members[1], ErrTerminal);
    assert AsFirst(members) == AsFirst(members[1..]) == AsFirst(members[1..][1..]);
  }
}
