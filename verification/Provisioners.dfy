/** The provisioners as code: the loops of the serial and concurrent groups over stateful leaves. */
module Provisioners {
  import opened ProvisionerTree
  import opened TreeConvergence

  lemma {:induction false} PlaysOn(n: Todo, a: seq<Call>, b: seq<Call>)
    requires Plays(n, a) && Plays(After(n, a), b)
    ensures Plays(n, a + b) && After(n, a + b) == After(After(n, a), b)
    decreases |a|
  {
    if a == [] {
      assert a + b == b;
    } else {
      PlaysOn(Spend(n, a[0]), a[1..], b);
      assert (a + b)[1..] == a[1..] + b;
    }
  }

  /** Having made the calls `tr`, the serial group still has `rest` to run. */
  ghost predicate Remaining(cs: seq<Tree>, d: Dir, tr: seq<Call>, rest: seq<Tree>) {
    forall more, r :: SerialRuns(rest, d, more, r) ==> SerialRuns(cs, d, tr + more, r)
  }

  lemma MemberSucceeds(cs: seq<Tree>, d: Dir, tr: seq<Call>, rest: seq<Tree>, made: seq<Call>)
    requires rest != [] && Remaining(cs, d, tr, rest) && Runs(First(rest, d), d, made, Nil)
    ensures Remaining(cs, d, tr + made, Others(rest, d))
  {
    forall more, r | SerialRuns(Others(rest, d), d, more, r) ensures SerialRuns(cs, d, tr + made + more, r) {
      var k := |made|;
      assert (made + more)[..k] == made && (made + more)[k..] == more;
      assert SerialSplit(rest, d, made + more, r, k, Nil);
      assert tr + made + more == tr + (made + more);
    }
  }

  lemma MemberFails(cs: seq<Tree>, d: Dir, tr: seq<Call>, rest: seq<Tree>, made: seq<Call>, r: Res)
    requires rest != [] && Remaining(cs, d, tr, rest) && Runs(First(rest, d), d, made, r) && !r.Nil?
    ensures SerialRuns(cs, d, tr + made, r)
  {
    assert made[..|made|] == made;
    assert SerialSplit(rest, d, made, r, |made|, r);
  }

  lemma {:induction false} ShuffleAlone(a: seq<Call>)
    ensures Shuffle(a, a, []) && Shuffle(a, [], a)
    decreases |a|
  {
    if a != [] { ShuffleAlone(a[1..]); }
  }

  lemma {:induction false} ShuffleAppend(tr: seq<Call>, a: seq<Call>, b: seq<Call>, more: seq<Call>)
    requires Shuffle(tr, a, b)
    ensures Shuffle(tr + more, a, b + more)
    decreases |tr|
  {
    if tr == [] {
      assert tr + more == more && b + more == more;
      ShuffleAlone(more);
    } else {
      assert (tr + more)[1..] == tr[1..] + more;
      if a != [] && a[0] == tr[0] && Shuffle(tr[1..], a[1..], b) {
        ShuffleAppend(tr[1..], a[1..], b, more);
      } else {
        ShuffleAppend(tr[1..], a, b[1..], more);
        assert (b + more)[1..] == b[1..] + more;
      }
    }
  }

  /** One more member of a concurrent group, its calls after all others'. */
  lemma {:induction false} GroupGrows(cs: seq<Tree>, c: Tree, d: Dir, tr: seq<Call>, r: Res, made: seq<Call>, r': Res)
    requires ConcurrentRuns(cs, d, tr, r) && Runs(c, d, made, r')
    ensures ConcurrentRuns(cs + [c], d, tr + made, if r.Nil? then r' else r)
    decreases |cs|
  {
    var kept := if r.Nil? then r' else r;
    if cs == [] {
      assert cs + [c] == [c] && [c][1..] == [] && tr + made == made;
      ShuffleAlone(made);
      assert ConcurrentRuns([], d, [], Nil);
      assert ConcurrentSplit([c], d, made, r', made, [], r', Nil);
    } else {
      var a, b, r1, r2 :| ConcurrentSplit(cs, d, tr, r, a, b, r1, r2);
      GroupGrows(cs[1..], c, d, b, r2, made, r');
      ShuffleAppend(tr, a, b, made);
      assert (cs + [c])[1..] == cs[1..] + [c];
      assert ConcurrentSplit(cs + [c], d, tr + made, kept, a, b + made, r1, if r2.Nil? then r' else r2);
    }
  }

  /** The leaves of a tree and what they have left to do. */
  class Cluster {
    var todo: Todo

    constructor (todo: Todo)
      ensures this.todo == todo
    {
      this.todo := todo;
    }

    method CallLeaf(id: nat, d: Dir) returns (made: seq<Call>, r: Res)
      modifies this
      ensures made == [Call(id, d, r)] && Plays(old(todo), made) && todo == After(old(todo), made)
    {
      r := if todo(id, d) == 0 then Nil else Yielded;
      made := [Call(id, d, r)];
      assert made[1..] == [];
      todo := Spend(todo, Call(id, d, r));
    }

    /** Forwards to provision, backwards to deprovision, until the first error. */
    method RunSerial(cs: seq<Tree>, d: Dir) returns (tr: seq<Call>, r: Res)
      modifies this
      ensures SerialRuns(cs, d, tr, r) && Plays(old(todo), tr) && todo == After(old(todo), tr)
      decreases cs
    {
      tr := [];
      ghost var rest := cs;
      assert forall more: seq<Call> :: tr + more == more;
      for i := 0 to |cs|
        invariant rest == if d.Provision? then cs[i..] else cs[..|cs| - i]
        invariant Remaining(cs, d, tr, rest)
        invariant Plays(old(todo), tr) && todo == After(old(todo), tr)
      {
        var child := if d.Provision? then cs[i] else cs[|cs| - (i + 1)];
        var made, err := RunTree(child, d);
        PlaysOn(old(todo), tr, made);
        if !err.Nil? {
          MemberFails(cs, d, tr, rest, made, err);
          return tr + made, err;
        }
        MemberSucceeds(cs, d, tr, rest, made);
        rest := Others(rest, d);
        tr := tr + made;
      }
      assert rest == [] && tr + [] == tr;
      assert SerialRuns(rest, d, [], Nil);
      r := Nil;
    }

    /** Every member runs whatever the others return, and the first error is kept. The members run
        here one after the other, which is one of the interleavings. */
    method RunConcurrent(cs: seq<Tree>, d: Dir) returns (tr: seq<Call>, r: Res)
      modifies this
      ensures ConcurrentRuns(cs, d, tr, r) && Plays(old(todo), tr) && todo == After(old(todo), tr)
      decreases cs
    {
      tr, r := [], Nil;
      for i := 0 to |cs|
        invariant ConcurrentRuns(cs[..i], d, tr, r)
        invariant Plays(old(todo), tr) && todo == After(old(todo), tr)
      {
        var made, err := RunTree(cs[i], d);
        PlaysOn(old(todo), tr, made);
        GroupGrows(cs[..i], cs[i], d, tr, r, made, err);
        assert cs[..i] + [cs[i]] == cs[..i + 1];
        tr := tr + made;
        if r.Nil? { r := err; }
      }
      assert cs[..|cs|] == cs;
    }

    /** A pass is a run of the tree, and what it leaves to do is one less than it found. */
    method RunTree(t: Tree, d: Dir) returns (tr: seq<Call>, r: Res)
      modifies this
      ensures Runs(t, d, tr, r) && Plays(old(todo), tr) && todo == After(old(todo), tr)
      ensures Distinct(t) ==>
                if Work(t, d, old(todo)) == 0 then r.Nil?
                else r == Yielded && Work(t, d, todo) == Work(t, d, old(todo)) - 1
      decreases t
    {
      match t {
        case Leaf(id) => tr, r := CallLeaf(id, d);
        case Serial(cs) => tr, r := RunSerial(cs, d);
        case Concurrent(cs) => tr, r := RunConcurrent(cs, d);
        case Conditional(holds, c) => tr, r := RunTree(c, if d.Provision? && !holds then Deprovision else d);
      }
      if Distinct(t) { PassLowersWorkByOne(t, d, old(todo), tr, r); }
    }
  }
}
