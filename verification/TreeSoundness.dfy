/** What a pass over a provisioner tree has done, read off its result. */
module TreeSoundness {
  import opened ProvisionerTree

  /** One successful call per leaf: provisioned, unless `off` or below a false predicate. */
  ghost function Expected(t: Tree, off: bool): multiset<Call>
    decreases t
  {
    match t
    case Leaf(id) => multiset{Call(id, if off then Deprovision else Provision, Nil)}
    case Serial(cs) => ExpectedAll(cs, off)
    case Concurrent(cs) => ExpectedAll(cs, off)
    case Conditional(holds, c) => Expected(c, off || !holds)
  }

  ghost function ExpectedAll(cs: seq<Tree>, off: bool): multiset<Call>
    decreases cs
  {
    if cs == [] then multiset{} else Expected(cs[0], off) + ExpectedAll(cs[1..], off)
  }

  lemma SumsAssociate(a: multiset<Call>, b: multiset<Call>, c: multiset<Call>)
    ensures a + (b + c) == (a + b) + c
  {
  }

  lemma {:induction false} ExpectedConcat(xs: seq<Tree>, ys: seq<Tree>, off: bool)
    ensures ExpectedAll(xs + ys, off) == ExpectedAll(xs, off) + ExpectedAll(ys, off)
    decreases |xs|
  {
    var all := xs + ys;
    if xs == [] {
      assert all == ys;
    } else {
      var rest := xs[1..];
      assert all[0] == xs[0] && all[1..] == rest + ys;
      ExpectedConcat(rest, ys, off);
      SumsAssociate(Expected(xs[0], off), ExpectedAll(rest, off), ExpectedAll(ys, off));
    }
  }

  /** The calls of a trace, whatever they returned. */
  ghost function Asked(tr: seq<Call>): (r: seq<Call>)
    ensures |r| == |tr| && forall i | 0 <= i < |tr| :: r[i] == tr[i].(res := Nil)
  {
    seq(|tr|, i requires 0 <= i < |tr| => tr[i].(res := Nil))
  }

  lemma {:induction false} ShuffleAsked(tr: seq<Call>, a: seq<Call>, b: seq<Call>)
    requires Shuffle(tr, a, b)
    ensures Shuffle(Asked(tr), Asked(a), Asked(b))
    decreases |tr|
  {
    if tr != [] {
      assert Asked(tr)[1..] == Asked(tr[1..]);
      if a != [] && a[0] == tr[0] && Shuffle(tr[1..], a[1..], b) {
        assert Asked(a)[1..] == Asked(a[1..]);
        ShuffleAsked(tr[1..], a[1..], b);
      } else {
        assert Asked(b)[1..] == Asked(b[1..]);
        ShuffleAsked(tr[1..], a, b[1..]);
      }
    }
  }

  ghost predicate AllNil(tr: seq<Call>) {
    forall c | c in tr :: c.res.Nil?
  }

  /** The calls are among the expected ones, all of them on success, and the result is nil
      exactly when every call's was, and else one of theirs. */
  ghost predicate Explains(expected: multiset<Call>, tr: seq<Call>, r: Res) {
    && multiset(Asked(tr)) <= expected
    && (r.Nil? ==> multiset(tr) == expected)
    && (r.Nil? <==> AllNil(tr))
    && (!r.Nil? ==> exists c :: c in tr && c.res == r)
  }

  lemma AskedConcat(a: seq<Call>, b: seq<Call>)
    ensures multiset(Asked(a + b)) == multiset(Asked(a)) + multiset(Asked(b))
  {
    assert Asked(a + b) == Asked(a) + Asked(b);
  }

  lemma ExplainsConcat(e1: multiset<Call>, e2: multiset<Call>, a: seq<Call>, b: seq<Call>, r: Res)
    requires Explains(e1, a, Nil) && Explains(e2, b, r)
    ensures Explains(e1 + e2, a + b, r)
  {
    AskedConcat(a, b);
    assert multiset(a + b) == multiset(a) + multiset(b);
    if !r.Nil? {
      var c :| c in b && c.res == r;
      assert c in a + b;
    }
  }

  lemma ExplainsStopped(e1: multiset<Call>, e2: multiset<Call>, tr: seq<Call>, r: Res)
    requires Explains(e1, tr, r) && !r.Nil?
    ensures Explains(e1 + e2, tr, r)
  {
  }

  lemma ExplainsShuffle(e1: multiset<Call>, e2: multiset<Call>, tr: seq<Call>, a: seq<Call>, b: seq<Call>,
                        r1: Res, r2: Res, r: Res)
    requires Shuffle(tr, a, b) && Kept(r, r1, r2) && Explains(e1, a, r1) && Explains(e2, b, r2)
    ensures Explains(e1 + e2, tr, r)
  {
    ShuffleMembers(tr, a, b);
    ShuffleAsked(tr, a, b);
    ShuffleMembers(Asked(tr), Asked(a), Asked(b));
    if !r.Nil? {
      if r == r1 {
        var c :| c in a && c.res == r;
        assert c in tr;
      } else {
        var c :| c in b && c.res == r;
        assert c in tr;
      }
    }
  }

  /** Under every interleaving, whatever the tree: a pass that returns nil has made exactly one
      successful call on every leaf, provisioning those with no false predicate above them and
      deprovisioning the others, or all of them in a deprovisioning pass. A pass that returns an
      error has called no leaf more often, nor in another direction, and returns a leaf's error. */
  lemma {:induction false} TreeSound(t: Tree, d: Dir, tr: seq<Call>, r: Res)
    requires Runs(t, d, tr, r)
    ensures Explains(Expected(t, d.Deprovision?), tr, r)
    decreases t
  {
    match t
    case Leaf(id) => assert tr[0] in tr;
    case Serial(cs) => SerialSound(cs, d, tr, r);
    case Concurrent(cs) => ConcurrentSound(cs, d, tr, r);
    case Conditional(holds, c) => TreeSound(c, Chosen(holds, d), tr, r);
  }

  lemma ExpectedParts(cs: seq<Tree>, d: Dir, off: bool)
    requires cs != []
    ensures ExpectedAll(cs, off) == Expected(First(cs, d), off) + ExpectedAll(Others(cs, d), off)
  {
    if d.Deprovision? {
      var n := |cs| - 1;
      var last := [cs[n]];
      assert cs == cs[..n] + last;
      ExpectedConcat(cs[..n], last, off);
      assert last[1..] == [] && ExpectedAll(last, off) == Expected(cs[n], off);
    }
  }

  lemma ExplainsSplit(e1: multiset<Call>, e2: multiset<Call>, tr: seq<Call>, k: nat, r1: Res, r: Res)
    requires k <= |tr| && Explains(e1, tr[..k], r1)
    requires if r1.Nil? then Explains(e2, tr[k..], r) else k == |tr| && r == r1
    ensures Explains(e1 + e2, tr, r)
  {
    if r1.Nil? {
      ExplainsConcat(e1, e2, tr[..k], tr[k..], r);
      assert tr[..k] + tr[k..] == tr;
    } else {
      assert tr[..k] == tr;
      ExplainsStopped(e1, e2, tr, r);
    }
  }

  lemma {:induction false} SerialSound(cs: seq<Tree>, d: Dir, tr: seq<Call>, r: Res)
    requires SerialRuns(cs, d, tr, r)
    ensures Explains(ExpectedAll(cs, d.Deprovision?), tr, r)
    decreases cs
  {
    if cs != [] {
      var off := d.Deprovision?;
      var k: nat, r1 :| SerialSplit(cs, d, tr, r, k, r1);
      var e1, e2 := Expected(First(cs, d), off), ExpectedAll(Others(cs, d), off);
      ExpectedParts(cs, d, off);
      TreeSound(First(cs, d), d, tr[..k], r1);
      if r1.Nil? { SerialSound(Others(cs, d), d, tr[k..], r); }
      ExplainsSplit(e1, e2, tr, k, r1, r);
    }
  }

  lemma {:induction false} ConcurrentSound(cs: seq<Tree>, d: Dir, tr: seq<Call>, r: Res)
    requires ConcurrentRuns(cs, d, tr, r)
    ensures Explains(ExpectedAll(cs, d.Deprovision?), tr, r)
    decreases cs
  {
    if cs != [] {
      var off := d.Deprovision?;
      var a, b, r1, r2 :| ConcurrentSplit(cs, d, tr, r, a, b, r1, r2);
      TreeSound(cs[0], d, a, r1);
      ConcurrentSound(cs[1..], d, b, r2);
      ExplainsShuffle(Expected(cs[0], off), ExpectedAll(cs[1..], off), tr, a, b, r1, r2, r);
    }
  }

  // ---------------------------------------------------------------- serial order

  /** Two children of a serial group hold `a` and `b`, the one holding `a` being run first. */
  ghost predicate Across(cs: seq<Tree>, d: Dir, a: nat, b: nat) {
    if d.Provision? then exists i, j | 0 <= i < j < |cs| :: a in Leaves(cs[i]) && b in Leaves(cs[j])
    else exists i, j | 0 <= i < j < |cs| :: a in Leaves(cs[j]) && b in Leaves(cs[i])
  }

  /** In a pass in direction `d`, leaf `a` is to be finished before leaf `b` is touched: some serial
      node has them in different children, in that order, or in the reverse one when it deprovisions. */
  ghost predicate Precedes(t: Tree, d: Dir, a: nat, b: nat)
    decreases t
  {
    match t
    case Leaf(_) => false
    case Serial(cs) => PrecedesIn(cs, d, a, b)
    case Concurrent(cs) => exists c | c in cs :: Precedes(c, d, a, b)
    case Conditional(holds, c) => Precedes(c, Chosen(holds, d), a, b)
  }

  ghost predicate PrecedesIn(cs: seq<Tree>, d: Dir, a: nat, b: nat)
    decreases cs
  {
    (exists c | c in cs :: Precedes(c, d, a, b)) || Across(cs, d, a, b)
  }

  ghost predicate DoneIn(tr: seq<Call>, a: nat) {
    exists c :: c in tr && c.leaf == a && c.res.Nil?
  }

  /** Wherever `b` was called, `a` had been called before and had returned nil. */
  ghost predicate InOrder(tr: seq<Call>, a: nat, b: nat) {
    forall y | 0 <= y < |tr| && tr[y].leaf == b :: DoneIn(tr[..y], a)
  }

  ghost function Called(tr: seq<Call>): set<nat> {
    set c | c in tr :: c.leaf
  }

  lemma {:induction false} PrecedingAreLeaves(t: Tree, d: Dir, a: nat, b: nat)
    requires Precedes(t, d, a, b)
    ensures a in Leaves(t) && b in Leaves(t)
    decreases t
  {
    match t
    case Serial(cs) =>
      if c :| c in cs && Precedes(c, d, a, b) { PrecedingAreLeaves(c, d, a, b); }
    case Concurrent(cs) =>
      var c :| c in cs && Precedes(c, d, a, b);
      PrecedingAreLeaves(c, d, a, b);
    case Conditional(holds, c) => PrecedingAreLeaves(c, Chosen(holds, d), a, b);
  }

  lemma {:induction false} ExpectedLeaves(t: Tree, off: bool)
    ensures forall c | c in Expected(t, off) :: c.leaf in Leaves(t)
    ensures forall l | l in Leaves(t) :: exists c :: c in Expected(t, off) && c.leaf == l
    decreases t
  {
    match t
    case Leaf(id) => assert Call(id, if off then Deprovision else Provision, Nil) in Expected(t, off);
    case Serial(cs) => ExpectedAllLeaves(cs, off);
    case Concurrent(cs) => ExpectedAllLeaves(cs, off);
    case Conditional(holds, c) => ExpectedLeaves(c, off || !holds);
  }

  lemma {:induction false} ExpectedAllLeaves(cs: seq<Tree>, off: bool)
    ensures forall c | c in ExpectedAll(cs, off) :: c.leaf in LeavesOf(cs)
    ensures forall l | l in LeavesOf(cs) :: exists c :: c in ExpectedAll(cs, off) && c.leaf == l
    decreases cs
  {
    if cs != [] {
      ExpectedLeaves(cs[0], off);
      ExpectedAllLeaves(cs[1..], off);
      Parts(cs, Provision);
      forall l | l in LeavesOf(cs) ensures exists c :: c in ExpectedAll(cs, off) && c.leaf == l {
        if l in Leaves(cs[0]) {
          var c :| c in Expected(cs[0], off) && c.leaf == l;
          assert c in ExpectedAll(cs, off);
        } else {
          var c :| c in ExpectedAll(cs[1..], off) && c.leaf == l;
          assert c in ExpectedAll(cs, off);
        }
      }
    }
  }

  /** A trace only touches the leaves it is expected to, and all of them if it succeeds. */
  lemma CalledLeaves(expected: multiset<Call>, leaves: set<nat>, tr: seq<Call>, r: Res)
    requires Explains(expected, tr, r)
    requires forall c | c in expected :: c.leaf in leaves
    requires forall l | l in leaves :: exists c :: c in expected && c.leaf == l
    ensures Called(tr) <= leaves
    ensures r.Nil? ==> forall l | l in leaves :: DoneIn(tr, l)
  {
    forall c | c in tr ensures c.leaf in leaves {
      var i :| 0 <= i < |tr| && tr[i] == c;
      assert Asked(tr)[i] in multiset(Asked(tr));
      assert Asked(tr)[i] in expected;
    }
    if r.Nil? {
      forall l | l in leaves ensures DoneIn(tr, l) {
        var c :| c in expected && c.leaf == l;
        assert c in multiset(tr);
      }
    }
  }

  lemma TreeCalls(t: Tree, d: Dir, tr: seq<Call>, r: Res)
    requires Runs(t, d, tr, r)
    ensures Called(tr) <= Leaves(t)
    ensures r.Nil? ==> forall l | l in Leaves(t) :: DoneIn(tr, l)
  {
    TreeSound(t, d, tr, r);
    ExpectedLeaves(t, d.Deprovision?);
    CalledLeaves(Expected(t, d.Deprovision?), Leaves(t), tr, r);
  }

  lemma ConcurrentCalls(cs: seq<Tree>, d: Dir, tr: seq<Call>, r: Res)
    requires ConcurrentRuns(cs, d, tr, r)
    ensures Called(tr) <= LeavesOf(cs)
  {
    ConcurrentSound(cs, d, tr, r);
    ExpectedAllLeaves(cs, d.Deprovision?);
    CalledLeaves(ExpectedAll(cs, d.Deprovision?), LeavesOf(cs), tr, r);
  }

  lemma SerialCalls(cs: seq<Tree>, d: Dir, tr: seq<Call>, r: Res)
    requires SerialRuns(cs, d, tr, r)
    ensures Called(tr) <= LeavesOf(cs)
  {
    SerialSound(cs, d, tr, r);
    ExpectedAllLeaves(cs, d.Deprovision?);
    CalledLeaves(ExpectedAll(cs, d.Deprovision?), LeavesOf(cs), tr, r);
  }

  lemma PrecedingInAreLeaves(cs: seq<Tree>, d: Dir, a: nat, b: nat)
    requires PrecedesIn(cs, d, a, b)
    ensures a in LeavesOf(cs) && b in LeavesOf(cs)
  {
    if c :| c in cs && Precedes(c, d, a, b) { PrecedingAreLeaves(c, d, a, b); }
  }

  lemma OrderAfterConcat(tr: seq<Call>, k: nat, a: nat, b: nat)
    requires k <= |tr|
    requires b in Called(tr[..k]) ==> InOrder(tr[..k], a, b)
    requires b in Called(tr[k..]) ==> InOrder(tr[k..], a, b) || DoneIn(tr[..k], a)
    ensures InOrder(tr, a, b)
  {
    forall y | 0 <= y < |tr| && tr[y].leaf == b ensures DoneIn(tr[..y], a) {
      if y < k {
        assert tr[..k][y] in tr[..k];
        assert tr[..k][..y] == tr[..y];
      } else {
        assert tr[k..][y - k] in tr[k..];
        if InOrder(tr[k..], a, b) {
          assert DoneIn(tr[k..][..y - k], a);
          var c :| c in tr[k..][..y - k] && c.leaf == a && c.res.Nil?;
          assert tr[..y] == tr[..k] + tr[k..][..y - k];
        } else {
          var c :| c in tr[..k] && c.leaf == a && c.res.Nil?;
          assert tr[..y] == tr[..k] + tr[k..y];
        }
      }
    }
  }

  /** In every pass, failing or not, and under every interleaving: no leaf is touched before each
      leaf that precedes it in some serial node has returned nil. */
  lemma {:induction false} SerialOrder(t: Tree, d: Dir, tr: seq<Call>, r: Res, a: nat, b: nat)
    requires Distinct(t) && Runs(t, d, tr, r) && Precedes(t, d, a, b)
    ensures InOrder(tr, a, b)
    decreases t
  {
    match t
    case Serial(cs) => OrderInSerial(cs, d, tr, r, a, b);
    case Concurrent(cs) =>
      var c :| c in cs && Precedes(c, d, a, b);
      OrderInConcurrent(cs, d, tr, r, a, b, c);
    case Conditional(holds, c) => SerialOrder(c, Chosen(holds, d), tr, r, a, b);
  }

  /** A pair is ordered within a serial group by its first child alone, by its other children
      alone, or by the step from the first child to the others. */
  lemma PrecedesSplits(cs: seq<Tree>, d: Dir, a: nat, b: nat)
    requires cs != [] && PrecedesIn(cs, d, a, b)
    ensures Precedes(First(cs, d), d, a, b) || PrecedesIn(Others(cs, d), d, a, b)
            || (a in Leaves(First(cs, d)) && b in LeavesOf(Others(cs, d)))
  {
    var n := |cs| - 1;
    var others := Others(cs, d);
    if c :| c in cs && Precedes(c, d, a, b) {
      var i :| 0 <= i < |cs| && cs[i] == c;
      if d.Provision? && i > 0 { assert others[i - 1] == c; assert c in others; }
      if d.Deprovision? && i < n { assert others[i] == c; assert c in others; }
    } else {
      if d.Provision? {
        var i, j :| 0 <= i < j < |cs| && a in Leaves(cs[i]) && b in Leaves(cs[j]);
        assert others[j - 1] == cs[j] && cs[j] in others;
        if i > 0 { assert others[i - 1] == cs[i]; }
      } else {
        var i, j :| 0 <= i < j < |cs| && a in Leaves(cs[j]) && b in Leaves(cs[i]);
        assert others[i] == cs[i] && cs[i] in others;
        if j < n { assert others[j] == cs[j]; }
      }
    }
  }

  lemma {:induction false} OrderInSerial(cs: seq<Tree>, d: Dir, tr: seq<Call>, r: Res, a: nat, b: nat)
    requires DistinctAll(cs) && SerialRuns(cs, d, tr, r) && PrecedesIn(cs, d, a, b)
    ensures InOrder(tr, a, b)
    decreases cs
  {
    if cs != [] {
      var first, others := First(cs, d), Others(cs, d);
      var k: nat, r1 :| SerialSplit(cs, d, tr, r, k, r1);
      Parts(cs, d);
      TreeCalls(first, d, tr[..k], r1);
      if r1.Nil? { SerialCalls(others, d, tr[k..], r); } else { assert tr[..k] == tr; }
      PrecedesSplits(cs, d, a, b);
      if Precedes(first, d, a, b) {
        SerialOrder(first, d, tr[..k], r1, a, b);
        PrecedingAreLeaves(first, d, a, b);
        OrderAfterConcat(tr, k, a, b);
      } else if PrecedesIn(others, d, a, b) {
        if r1.Nil? { OrderInSerial(others, d, tr[k..], r, a, b); }
        PrecedingInAreLeaves(others, d, a, b);
        OrderAfterConcat(tr, k, a, b);
      } else {
        OrderAfterConcat(tr, k, a, b);
      }
    }
  }

  lemma OrderAfterShuffle(tr: seq<Call>, a: seq<Call>, b: seq<Call>, x: nat, y: nat)
    requires Shuffle(tr, a, b)
    requires (y !in Called(b) && InOrder(a, x, y)) || (y !in Called(a) && InOrder(b, x, y))
    ensures InOrder(tr, x, y)
  {
    forall p | 0 <= p < |tr| && tr[p].leaf == y ensures DoneIn(tr[..p], x) {
      ShuffleOrder(tr, a, b, p);
      if j: nat :| j < |a| && a[j] == tr[p] && forall i: nat | i < j :: a[i] in tr[..p] {
        assert a[j] in a;
        assert DoneIn(a[..j], x);
        var c :| c in a[..j] && c.leaf == x && c.res.Nil?;
      } else {
        var j: nat :| j < |b| && b[j] == tr[p] && forall i: nat | i < j :: b[i] in tr[..p];
        assert b[j] in b;
        assert DoneIn(b[..j], x);
        var c :| c in b[..j] && c.leaf == x && c.res.Nil?;
      }
    }
  }

  lemma {:induction false} OrderInConcurrent(cs: seq<Tree>, d: Dir, tr: seq<Call>, r: Res, a: nat, b: nat, c: Tree)
    requires DistinctAll(cs) && ConcurrentRuns(cs, d, tr, r) && c in cs && Precedes(c, d, a, b)
    ensures InOrder(tr, a, b)
    decreases cs
  {
    var x, y, r1, r2 :| ConcurrentSplit(cs, d, tr, r, x, y, r1, r2);
    Parts(cs, Provision);
    TreeCalls(cs[0], d, x, r1);
    ConcurrentCalls(cs[1..], d, y, r2);
    PrecedingAreLeaves(c, d, a, b);
    if c == cs[0] {
      SerialOrder(cs[0], d, x, r1, a, b);
    } else {
      assert c in cs[1..];
      OrderInConcurrent(cs[1..], d, y, r2, a, b, c);
    }
    OrderAfterShuffle(tr, x, y, a, b);
  }

  // ---------------------------------------------------------------- all members run

  /** The calls of a trace on some leaves, in order. */
  function Only(tr: seq<Call>, leaves: set<nat>): seq<Call>
    decreases |tr|
  {
    if tr == [] then []
    else (if tr[0].leaf in leaves then [tr[0]] else []) + Only(tr[1..], leaves)
  }

  lemma {:induction false} OnlyAll(tr: seq<Call>, leaves: set<nat>)
    requires forall c | c in tr :: c.leaf in leaves
    ensures Only(tr, leaves) == tr
    decreases |tr|
  {
    if tr != [] {
      assert tr[0] in tr;
      OnlyAll(tr[1..], leaves);
    }
  }

  /** Looking at leaves that `a` does not touch, an interleaving of `a` and `b` is `b`. */
  lemma {:induction false} ShuffleOnly(tr: seq<Call>, a: seq<Call>, b: seq<Call>, leaves: set<nat>)
    requires Shuffle(tr, a, b)
    ensures (forall c | c in a :: c.leaf !in leaves) ==> Only(tr, leaves) == Only(b, leaves)
    ensures (forall c | c in b :: c.leaf !in leaves) ==> Only(tr, leaves) == Only(a, leaves)
    decreases |tr|
  {
    if tr != [] {
      if a != [] && a[0] == tr[0] && Shuffle(tr[1..], a[1..], b) {
        assert a[0] in a && forall c | c in a[1..] :: c in a;
        ShuffleOnly(tr[1..], a[1..], b, leaves);
      } else {
        assert b[0] in b && forall c | c in b[1..] :: c in b;
        ShuffleOnly(tr[1..], a, b[1..], leaves);
      }
    }
  }

  /** Seen from its own leaves, an interleaving is each member's own trace. */
  lemma MemberTraces(cs: seq<Tree>, tr: seq<Call>, a: seq<Call>, b: seq<Call>)
    requires cs != [] && DistinctAll(cs) && Shuffle(tr, a, b)
    requires Called(a) <= Leaves(cs[0]) && Called(b) <= LeavesOf(cs[1..])
    ensures Only(tr, Leaves(cs[0])) == a
    ensures forall i | 1 <= i < |cs| :: Only(tr, Leaves(cs[i])) == Only(b, Leaves(cs[i]))
  {
    Parts(cs, Provision);
    assert forall c: Call | c in a :: c.leaf in Called(a);
    assert forall c: Call | c in b :: c.leaf in Called(b);
    ShuffleOnly(tr, a, b, Leaves(cs[0]));
    OnlyAll(a, Leaves(cs[0]));
    forall i | 1 <= i < |cs| ensures Only(tr, Leaves(cs[i])) == Only(b, Leaves(cs[i])) {
      ShuffleOnly(tr, a, b, Leaves(cs[i]));
    }
  }

  /** `rs` are the results of the members' own runs within `tr`. */
  ghost predicate MembersRun(cs: seq<Tree>, d: Dir, tr: seq<Call>, rs: seq<Res>) {
    |rs| == |cs| && forall i | 0 <= i < |cs| :: Runs(cs[i], d, Only(tr, Leaves(cs[i])), rs[i])
  }

  lemma MembersPrepend(cs: seq<Tree>, d: Dir, tr: seq<Call>, a: seq<Call>, b: seq<Call>, r1: Res, later: seq<Res>)
    requires cs != [] && Runs(cs[0], d, a, r1) && MembersRun(cs[1..], d, b, later)
    requires Only(tr, Leaves(cs[0])) == a
    requires forall i | 1 <= i < |cs| :: Only(tr, Leaves(cs[i])) == Only(b, Leaves(cs[i]))
    ensures MembersRun(cs, d, tr, [r1] + later)
  {
    forall i | 0 <= i < |cs| ensures Runs(cs[i], d, Only(tr, Leaves(cs[i])), ([r1] + later)[i]) {
      if i > 0 {
        assert cs[1..][i - 1] == cs[i] && Runs(cs[1..][i - 1], d, Only(b, Leaves(cs[1..][i - 1])), later[i - 1]);
      }
    }
  }

  /** Whatever its siblings return, every member of a concurrent group completes a run of its own: the
      calls on its leaves are one. The group returns nil iff all members do, and else one's error. */
  lemma {:induction false} EveryMemberRuns(cs: seq<Tree>, d: Dir, tr: seq<Call>, r: Res) returns (rs: seq<Res>)
    requires DistinctAll(cs) && ConcurrentRuns(cs, d, tr, r)
    ensures MembersRun(cs, d, tr, rs)
    ensures r.Nil? <==> forall x | x in rs :: x.Nil?
    ensures r.Nil? || r in rs
    decreases cs
  {
    rs := [];
    if cs != [] {
      var a, b, r1, r2 :| ConcurrentSplit(cs, d, tr, r, a, b, r1, r2);
      Parts(cs, Provision);
      TreeCalls(cs[0], d, a, r1);
      ConcurrentCalls(cs[1..], d, b, r2);
      var later := EveryMemberRuns(cs[1..], d, b, r2);
      rs := [r1] + later;
      MemberTraces(cs, tr, a, b);
      MembersPrepend(cs, d, tr, a, b, r1, later);
      assert r1 in rs && forall x :: x in rs <==> x == r1 || x in later;
    }
  }
}
