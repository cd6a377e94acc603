/** How many passes a tree of yielding leaves takes: exactly its remaining work. */
module TreeConvergence {
  import opened ProvisionerTree
  import opened TreeSoundness

  /** For every leaf and direction, how often it will still yield before it succeeds. */
  type Todo = (nat, Dir) -> nat

  function Answer(n: Todo, c: Call): Res {
    if n(c.leaf, c.dir) == 0 then Nil else Yielded
  }

  /** One call uses up one yield. */
  function Spend(n: Todo, c: Call): Todo {
    (l: nat, d: Dir) => if l == c.leaf && d == c.dir && n(l, d) > 0 then n(l, d) - 1 else n(l, d)
  }

  /** The leaves answer the calls of `tr`, one after the other, as their state says. */
  ghost predicate Plays(n: Todo, tr: seq<Call>)
    decreases |tr|
  {
    tr != [] ==> tr[0].res == Answer(n, tr[0]) && Plays(Spend(n, tr[0]), tr[1..])
  }

  ghost function After(n: Todo, tr: seq<Call>): Todo
    decreases |tr|
  {
    if tr == [] then n else After(Spend(n, tr[0]), tr[1..])
  }

  function Max(x: nat, y: nat): nat {
    if x < y then y else x
  }

  /** Remaining work: a sum along serial children, a maximum over concurrent ones. */
  ghost function Work(t: Tree, d: Dir, n: Todo): nat
    decreases t
  {
    match t
    case Leaf(id) => n(id, d)
    case Serial(cs) => Sum(cs, d, n)
    case Concurrent(cs) => Maximum(cs, d, n)
    case Conditional(holds, c) => Work(c, Chosen(holds, d), n)
  }

  ghost function Sum(cs: seq<Tree>, d: Dir, n: Todo): nat
    decreases cs
  {
    if cs == [] then 0 else Work(cs[0], d, n) + Sum(cs[1..], d, n)
  }

  ghost function Maximum(cs: seq<Tree>, d: Dir, n: Todo): nat
    decreases cs
  {
    if cs == [] then 0 else Max(Work(cs[0], d, n), Maximum(cs[1..], d, n))
  }

  lemma {:induction false} SumFromEnd(cs: seq<Tree>, d: Dir, n: Todo)
    requires cs != []
    ensures Sum(cs, d, n) == Sum(cs[..|cs| - 1], d, n) + Work(cs[|cs| - 1], d, n)
    decreases |cs|
  {
    if |cs| > 1 {
      SumFromEnd(cs[1..], d, n);
      assert cs[1..][..|cs| - 2] == cs[..|cs| - 1][1..];
    }
  }

  ghost predicate Agree(leaves: set<nat>, n: Todo, n': Todo) {
    forall l, d | l in leaves :: n(l, d) == n'(l, d)
  }

  lemma {:induction false} WorkDependsOnLeaves(t: Tree, d: Dir, n: Todo, n': Todo)
    requires Agree(Leaves(t), n, n')
    ensures Work(t, d, n) == Work(t, d, n')
    decreases t
  {
    match t
    case Leaf(_) =>
    case Serial(cs) => GroupDependsOnLeaves(cs, d, n, n');
    case Concurrent(cs) => GroupDependsOnLeaves(cs, d, n, n');
    case Conditional(holds, c) => WorkDependsOnLeaves(c, Chosen(holds, d), n, n');
  }

  lemma {:induction false} GroupDependsOnLeaves(cs: seq<Tree>, d: Dir, n: Todo, n': Todo)
    requires Agree(LeavesOf(cs), n, n')
    ensures Sum(cs, d, n) == Sum(cs, d, n') && Maximum(cs, d, n) == Maximum(cs, d, n')
    decreases cs
  {
    if cs != [] {
      Parts(cs, Provision);
      WorkDependsOnLeaves(cs[0], d, n, n');
      GroupDependsOnLeaves(cs[1..], d, n, n');
    }
  }

  // ---------------------------------------------------------------- one pass

  /** Every call was answered from the state before the pass. */
  ghost predicate Answered(n: Todo, tr: seq<Call>) {
    forall c | c in tr :: c.res == Answer(n, c)
  }

  ghost predicate Asks(tr: seq<Call>, l: nat, d: Dir) {
    exists c :: c in tr && c.leaf == l && c.dir == d
  }

  /** On `leaves`, the state after the pass is the one before less one yield per call. */
  ghost predicate Spent(leaves: set<nat>, n: Todo, tr: seq<Call>, n': Todo) {
    forall l, d | l in leaves :: n'(l, d) == if Asks(tr, l, d) && n(l, d) > 0 then n(l, d) - 1 else n(l, d)
  }

  /** The verdict on a pass: nil exactly without work, and otherwise a yield and one unit less. */
  ghost predicate OneLess(before: nat, after: nat, r: Res) {
    if before == 0 then r.Nil? && after == 0 else r == Yielded && after == before - 1
  }

  /** Restricting to leaves that only the part `a` of the trace calls. */
  lemma SpentByPart(leaves: set<nat>, n: Todo, tr: seq<Call>, n': Todo, part: set<nat>, a: seq<Call>)
    requires Spent(leaves, n, tr, n') && part <= leaves
    requires forall c | c in a :: c in tr
    requires forall c | c in tr && c.leaf in part :: c in a
    ensures Spent(part, n, a, n')
  {
    forall l, d | l in part ensures Asks(a, l, d) == Asks(tr, l, d) {
    }
  }

  lemma {:induction false} TreePass(t: Tree, d: Dir, n: Todo, tr: seq<Call>, r: Res, n': Todo)
    requires Distinct(t) && Runs(t, d, tr, r) && Answered(n, tr) && Spent(Leaves(t), n, tr, n')
    ensures OneLess(Work(t, d, n), Work(t, d, n'), r)
    decreases t
  {
    match t
    case Leaf(id) =>
      assert tr[0] in tr;
      assert id in Leaves(t) && Asks(tr, id, d);
    case Serial(cs) => SerialPass(cs, d, n, tr, r, n');
    case Concurrent(cs) => ConcurrentPass(cs, d, n, tr, r, n');
    case Conditional(holds, c) => TreePass(c, Chosen(holds, d), n, tr, r, n');
  }

  lemma {:induction false} SerialPass(cs: seq<Tree>, d: Dir, n: Todo, tr: seq<Call>, r: Res, n': Todo)
    requires DistinctAll(cs) && SerialRuns(cs, d, tr, r) && Answered(n, tr) && Spent(LeavesOf(cs), n, tr, n')
    ensures OneLess(Sum(cs, d, n), Sum(cs, d, n'), r)
    decreases cs
  {
    if cs != [] {
      var first, others := First(cs, d), Others(cs, d);
      var k: nat, r1 :| SerialSplit(cs, d, tr, r, k, r1);
      assert tr == tr[..k] + tr[k..];
      Parts(cs, d);
      TreeCalls(first, d, tr[..k], r1);
      if r1.Nil? { SerialCalls(others, d, tr[k..], r); }
      SpentByPart(LeavesOf(cs), n, tr, n', Leaves(first), tr[..k]);
      TreePass(first, d, n, tr[..k], r1, n');
      SpentByPart(LeavesOf(cs), n, tr, n', LeavesOf(others), tr[k..]);
      if r1.Nil? {
        SerialPass(others, d, n, tr[k..], r, n');
      } else {
        GroupDependsOnLeaves(others, d, n, n');
      }
      SumFromEnd(cs, d, n);
      SumFromEnd(cs, d, n');
    }
  }

  lemma {:induction false} ConcurrentPass(cs: seq<Tree>, d: Dir, n: Todo, tr: seq<Call>, r: Res, n': Todo)
    requires DistinctAll(cs) && ConcurrentRuns(cs, d, tr, r) && Answered(n, tr) && Spent(LeavesOf(cs), n, tr, n')
    ensures OneLess(Maximum(cs, d, n), Maximum(cs, d, n'), r)
    decreases cs
  {
    if cs != [] {
      var a, b, r1, r2 :| ConcurrentSplit(cs, d, tr, r, a, b, r1, r2);
      Parts(cs, Provision);
      ShuffleMembers(tr, a, b);
      TreeCalls(cs[0], d, a, r1);
      ConcurrentCalls(cs[1..], d, b, r2);
      SpentByPart(LeavesOf(cs), n, tr, n', Leaves(cs[0]), a);
      SpentByPart(LeavesOf(cs), n, tr, n', LeavesOf(cs[1..]), b);
      TreePass(cs[0], d, n, a, r1, n');
      ConcurrentPass(cs[1..], d, n, b, r2, n');
    }
  }

  // ---------------------------------------------------------------- from stepwise play to one pass

  ghost predicate CallsOnce(tr: seq<Call>) {
    forall i, j | 0 <= i < j < |tr| :: tr[i].leaf != tr[j].leaf
  }

  /** When no leaf is called twice, playing the calls one by one is answering them all at once. */
  lemma {:induction false} PlayedOnce(n: Todo, tr: seq<Call>)
    requires CallsOnce(tr) && Plays(n, tr)
    ensures Answered(n, tr)
    ensures forall leaves: set<nat> :: Spent(leaves, n, tr, After(n, tr))
    decreases |tr|
  {
    if tr != [] {
      var c, rest := tr[0], tr[1..];
      PlayedOnce(Spend(n, c), rest);
      assert tr == [c] + rest;
      forall x | x in rest ensures x.leaf != c.leaf && x.res == Answer(n, x) {
        var i :| 0 <= i < |rest| && rest[i] == x;
        assert tr[i + 1] == x;
      }
      forall leaves: set<nat> ensures Spent(leaves, n, tr, After(n, tr)) {
        assert Spent(leaves, Spend(n, c), rest, After(n, tr));
        forall l, d | l in leaves
          ensures After(n, tr)(l, d) == if Asks(tr, l, d) && n(l, d) > 0 then n(l, d) - 1 else n(l, d)
        {
          if l == c.leaf && d == c.dir { assert c in tr; assert !Asks(rest, l, d); }
          if Asks(rest, l, d) {
            var x :| x in rest && x.leaf == l && x.dir == d;
            assert x in tr;
          }
        }
      }
    }
  }

  lemma OnceAfterConcat(tr: seq<Call>, k: nat)
    requires k <= |tr| && CallsOnce(tr[..k]) && CallsOnce(tr[k..]) && Called(tr[..k]) !! Called(tr[k..])
    ensures CallsOnce(tr)
  {
    forall i, j | 0 <= i < j < |tr| ensures tr[i].leaf != tr[j].leaf {
      if j < k {
        assert tr[..k][i].leaf != tr[..k][j].leaf;
      } else if k <= i {
        assert tr[k..][i - k].leaf != tr[k..][j - k].leaf;
      } else {
        assert tr[..k][i] in tr[..k] && tr[k..][j - k] in tr[k..];
        assert tr[i].leaf in Called(tr[..k]) && tr[j].leaf in Called(tr[k..]);
      }
    }
  }

  lemma {:induction false} TreeCallsOnce(t: Tree, d: Dir, tr: seq<Call>, r: Res)
    requires Distinct(t) && Runs(t, d, tr, r)
    ensures CallsOnce(tr)
    decreases t
  {
    match t
    case Leaf(_) =>
    case Serial(cs) => SerialCallsOnce(cs, d, tr, r);
    case Concurrent(cs) => ConcurrentCallsOnce(cs, d, tr, r);
    case Conditional(holds, c) => TreeCallsOnce(c, Chosen(holds, d), tr, r);
  }

  lemma {:induction false} SerialCallsOnce(cs: seq<Tree>, d: Dir, tr: seq<Call>, r: Res)
    requires DistinctAll(cs) && SerialRuns(cs, d, tr, r)
    ensures CallsOnce(tr)
    decreases cs
  {
    if cs != [] {
      var k: nat, r1 :| SerialSplit(cs, d, tr, r, k, r1);
      Parts(cs, d);
      TreeCalls(First(cs, d), d, tr[..k], r1);
      TreeCallsOnce(First(cs, d), d, tr[..k], r1);
      if r1.Nil? {
        SerialCalls(Others(cs, d), d, tr[k..], r);
        SerialCallsOnce(Others(cs, d), d, tr[k..], r);
      }
      OnceAfterConcat(tr, k);
    }
  }

  lemma HeadIsFresh(a: seq<Call>, b: seq<Call>)
    requires a != [] && CallsOnce(a) && Called(a) !! Called(b)
    ensures CallsOnce(a[1..]) && Called(a[1..]) !! Called(b)
    ensures forall c | c in a[1..] || c in b :: c.leaf != a[0].leaf
  {
    assert a[0].leaf in Called(a);
    forall c | c in a[1..] ensures c.leaf != a[0].leaf && c in a {
      var i :| 0 <= i < |a[1..]| && a[1..][i] == c;
      assert a[i + 1] == c;
    }
    forall c | c in b ensures c.leaf in Called(b) {
    }
  }

  lemma {:induction false} OnceAfterShuffle(tr: seq<Call>, a: seq<Call>, b: seq<Call>)
    requires Shuffle(tr, a, b) && CallsOnce(a) && CallsOnce(b) && Called(a) !! Called(b)
    ensures CallsOnce(tr)
    decreases |tr|
  {
    if tr != [] {
      var rest := tr[1..];
      if a != [] && a[0] == tr[0] && Shuffle(rest, a[1..], b) {
        HeadIsFresh(a, b);
        OnceAfterShuffle(rest, a[1..], b);
        ShuffleMembers(rest, a[1..], b);
      } else {
        HeadIsFresh(b, a);
        OnceAfterShuffle(rest, a, b[1..]);
        ShuffleMembers(rest, a, b[1..]);
      }
      forall i | 0 <= i < |rest| ensures rest[i].leaf != tr[0].leaf {
        assert rest[i] in rest;
      }
      forall i, j | 0 <= i < j < |tr| ensures tr[i].leaf != tr[j].leaf {
        assert rest[j - 1] == tr[j];
        if i > 0 { assert rest[i - 1] == tr[i]; }
      }
    }
  }

  lemma {:induction false} ConcurrentCallsOnce(cs: seq<Tree>, d: Dir, tr: seq<Call>, r: Res)
    requires DistinctAll(cs) && ConcurrentRuns(cs, d, tr, r)
    ensures CallsOnce(tr)
    decreases cs
  {
    if cs != [] {
      var a, b, r1, r2 :| ConcurrentSplit(cs, d, tr, r, a, b, r1, r2);
      Parts(cs, Provision);
      TreeCalls(cs[0], d, a, r1);
      TreeCallsOnce(cs[0], d, a, r1);
      ConcurrentCalls(cs[1..], d, b, r2);
      ConcurrentCallsOnce(cs[1..], d, b, r2);
      OnceAfterShuffle(tr, a, b);
    }
  }

  // ---------------------------------------------------------------- the measure

  /** Under every interleaving a pass returns nil exactly when no work is left, and otherwise
      yields and leaves exactly one unit less. */
  lemma PassLowersWorkByOne(t: Tree, d: Dir, n: Todo, tr: seq<Call>, r: Res)
    requires Distinct(t) && Runs(t, d, tr, r) && Plays(n, tr)
    ensures r.Nil? <==> Work(t, d, n) == 0
    ensures !r.Nil? ==> r == Yielded && Work(t, d, After(n, tr)) == Work(t, d, n) - 1
    ensures r.Nil? ==> Work(t, d, After(n, tr)) == 0
  {
    TreeCallsOnce(t, d, tr, r);
    PlayedOnce(n, tr);
    assert Spent(Leaves(t), n, tr, After(n, tr));
    TreePass(t, d, n, tr, r, After(n, tr));
  }

  /** Pass after pass, each with its own interleaving. */
  ghost predicate Passes(t: Tree, d: Dir, n: Todo, trs: seq<seq<Call>>, rs: seq<Res>)
    requires |trs| == |rs|
    decreases |trs|
  {
    trs != [] ==> Runs(t, d, trs[0], rs[0]) && Plays(n, trs[0]) && Passes(t, d, After(n, trs[0]), trs[1..], rs[1..])
  }

  /** However the passes interleave, the i-th one (from zero) succeeds iff i has reached the work
      there was to begin with. */
  lemma {:induction false} Converges(t: Tree, d: Dir, n: Todo, trs: seq<seq<Call>>, rs: seq<Res>, i: nat)
    requires Distinct(t) && |trs| == |rs| && Passes(t, d, n, trs, rs) && i < |rs|
    ensures rs[i].Nil? <==> Work(t, d, n) <= i
    decreases |trs|
  {
    PassLowersWorkByOne(t, d, n, trs[0], rs[0]);
    if i > 0 { Converges(t, d, After(n, trs[0]), trs[1..], rs[1..], i - 1); }
  }
}
