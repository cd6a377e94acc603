/**
 Provisioners as trees of serial, concurrent and conditional nodes over leaves. A pass is the
 trace of leaf calls it makes; concurrent children may interleave their calls in any way.
 */
module ProvisionerTree {
  datatype Dir = Provision | Deprovision

  datatype Res = Nil | Yielded | Failed(code: nat)

  datatype Tree =
    | Leaf(id: nat)
    | Serial(children: seq<Tree>)
    | Concurrent(children: seq<Tree>)
    | Conditional(holds: bool, child: Tree)

  datatype Call = Call(leaf: nat, dir: Dir, res: Res)

  /** The direction a conditional hands down. */
  function Chosen(holds: bool, d: Dir): Dir {
    if d.Provision? && !holds then Deprovision else d
  }

  /** The child a serial node runs first, and the others; deprovisioning goes backwards. */
  function First(cs: seq<Tree>, d: Dir): (c: Tree)
    requires cs != []
    ensures c in cs
  {
    if d.Provision? then cs[0] else cs[|cs| - 1]
  }

  function Others(cs: seq<Tree>, d: Dir): (r: seq<Tree>)
    requires cs != []
    ensures |r| == |cs| - 1
  {
    if d.Provision? then cs[1..] else cs[..|cs| - 1]
  }

  /** `tr` is an interleaving of `a` and `b`. */
  ghost predicate Shuffle(tr: seq<Call>, a: seq<Call>, b: seq<Call>)
    decreases |tr|
  {
    if tr == [] then a == [] && b == []
    else
      || (a != [] && a[0] == tr[0] && Shuffle(tr[1..], a[1..], b))
      || (b != [] && b[0] == tr[0] && Shuffle(tr[1..], a, b[1..]))
  }

  /** A group reports nil when all its members do, and otherwise one of their errors. */
  predicate Kept(r: Res, r1: Res, r2: Res) {
    if r1.Nil? then r == r2 else if r2.Nil? then r == r1 else r == r1 || r == r2
  }

  /** A pass over `t` in direction `d` can make the calls `tr`, in that order, and return `r`. */
  ghost predicate Runs(t: Tree, d: Dir, tr: seq<Call>, r: Res)
    decreases t
  {
    match t
    case Leaf(id) => tr == [Call(id, d, r)]
    case Serial(cs) => SerialRuns(cs, d, tr, r)
    case Concurrent(cs) => ConcurrentRuns(cs, d, tr, r)
    case Conditional(holds, c) => Runs(c, Chosen(holds, d), tr, r)
  }

  ghost predicate SerialRuns(cs: seq<Tree>, d: Dir, tr: seq<Call>, r: Res)
    decreases cs, 1
  {
    if cs == [] then tr == [] && r == Nil
    else exists k, r1 :: SerialSplit(cs, d, tr, r, k, r1)
  }

  /** The first child makes `tr[..k]` and returns `r1`; an error ends the group. */
  ghost predicate SerialSplit(cs: seq<Tree>, d: Dir, tr: seq<Call>, r: Res, k: nat, r1: Res)
    requires cs != []
    decreases cs, 0
  {
    && k <= |tr|
    && Runs(First(cs, d), d, tr[..k], r1)
    && if r1.Nil? then SerialRuns(Others(cs, d), d, tr[k..], r) else k == |tr| && r == r1
  }

  ghost predicate ConcurrentRuns(cs: seq<Tree>, d: Dir, tr: seq<Call>, r: Res)
    decreases cs, 1
  {
    if cs == [] then tr == [] && r == Nil
    else exists a, b, r1, r2 :: ConcurrentSplit(cs, d, tr, r, a, b, r1, r2)
  }

  ghost predicate ConcurrentSplit(
    cs: seq<Tree>, d: Dir, tr: seq<Call>, r: Res, a: seq<Call>, b: seq<Call>, r1: Res, r2: Res)
    requires cs != []
    decreases cs, 0
  {
    Shuffle(tr, a, b) && Runs(cs[0], d, a, r1) && ConcurrentRuns(cs[1..], d, b, r2) && Kept(r, r1, r2)
  }

  // ---------------------------------------------------------------- leaves

  ghost function Leaves(t: Tree): set<nat> {
    match t
    case Leaf(id) => {id}
    case Serial(cs) => LeavesOf(cs)
    case Concurrent(cs) => LeavesOf(cs)
    case Conditional(_, c) => Leaves(c)
  }

  ghost function LeavesOf(cs: seq<Tree>): set<nat> {
    set c, l | c in cs && l in Leaves(c) :: l
  }

  /** No leaf occurs twice. */
  ghost predicate Distinct(t: Tree) {
    match t
    case Leaf(_) => true
    case Serial(cs) => DistinctAll(cs)
    case Concurrent(cs) => DistinctAll(cs)
    case Conditional(_, c) => Distinct(c)
  }

  ghost predicate DistinctAll(cs: seq<Tree>) {
    && (forall c | c in cs :: Distinct(c))
    && (forall i, j | 0 <= i < j < |cs| :: Leaves(cs[i]) !! Leaves(cs[j]))
  }

  lemma Parts(cs: seq<Tree>, d: Dir)
    requires cs != []
    ensures LeavesOf(cs) == Leaves(First(cs, d)) + LeavesOf(Others(cs, d))
    ensures DistinctAll(cs) ==> Distinct(First(cs, d)) && DistinctAll(Others(cs, d))
    ensures DistinctAll(cs) ==> Leaves(First(cs, d)) !! LeavesOf(Others(cs, d))
  {
    var n := |cs| - 1;
    if d.Provision? {
      assert cs == [cs[0]] + cs[1..];
      assert forall i | 0 <= i < n :: cs[1..][i] == cs[i + 1];
    } else {
      assert cs == cs[..n] + [cs[n]];
    }
  }

  // ---------------------------------------------------------------- what interleaving keeps

  lemma {:induction false} ShuffleMembers(tr: seq<Call>, a: seq<Call>, b: seq<Call>)
    requires Shuffle(tr, a, b)
    ensures multiset(tr) == multiset(a) + multiset(b)
    ensures forall c :: c in tr <==> c in a || c in b
    decreases |tr|
  {
    if tr != [] {
      assert tr == [tr[0]] + tr[1..];
      if a != [] && a[0] == tr[0] && Shuffle(tr[1..], a[1..], b) {
        ShuffleMembers(tr[1..], a[1..], b);
        assert a == [a[0]] + a[1..];
      } else {
        ShuffleMembers(tr[1..], a, b[1..]);
        assert b == [b[0]] + b[1..];
      }
    }
  }

  /** An interleaving keeps the order within each part. */
  lemma {:induction false} ShuffleOrder(tr: seq<Call>, a: seq<Call>, b: seq<Call>, y: nat)
    requires Shuffle(tr, a, b) && y < |tr|
    ensures (exists j: nat :: j < |a| && a[j] == tr[y] && forall i: nat | i < j :: a[i] in tr[..y])
            || (exists j: nat :: j < |b| && b[j] == tr[y] && forall i: nat | i < j :: b[i] in tr[..y])
    decreases |tr|
  {
    if y == 0 {
      if a != [] && a[0] == tr[0] { assert a[0] == tr[y]; } else { assert b[0] == tr[y]; }
    } else {
      var rest := tr[1..];
      assert tr[..y] == [tr[0]] + rest[..y - 1];
      if a != [] && a[0] == tr[0] && Shuffle(rest, a[1..], b) {
        ShuffleOrder(rest, a[1..], b, y - 1);
        if j: nat :| j < |a[1..]| && a[1..][j] == rest[y - 1] && forall i: nat | i < j :: a[1..][i] in rest[..y - 1] {
          assert a[j + 1] == tr[y];
          forall i: nat | i < j + 1 ensures a[i] in tr[..y] {
            if i > 0 { assert a[1..][i - 1] in rest[..y - 1]; }
          }
        } else {
          var j: nat :| j < |b| && b[j] == rest[y - 1] && forall i: nat | i < j :: b[i] in rest[..y - 1];
          assert b[j] == tr[y];
        }
      } else {
        ShuffleOrder(rest, a, b[1..], y - 1);
        if j: nat :| j < |a| && a[j] == rest[y - 1] && forall i: nat | i < j :: a[i] in rest[..y - 1] {
          assert a[j] == tr[y];
        } else {
          var j: nat :| j < |b[1..]| && b[1..][j] == rest[y - 1] && forall i: nat | i < j :: b[1..][i] in rest[..y - 1];
          assert b[j + 1] == tr[y];
          forall i: nat | i < j + 1 ensures b[i] in tr[..y] {
            if i > 0 { assert b[1..][i - 1] in rest[..y - 1]; }
          }
        }
      }
    }
  }
}
