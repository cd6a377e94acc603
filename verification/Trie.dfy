/** The dictionary trie: mutable nodes on the heap that agree with a set of words. */
module Trie {
  class Node {
    var word: bool
    var children: map<char, Node>

    constructor ()
      ensures !word && children == map[]
    {
      word, children := false, map[];
    }
  }

  /** Paths lead to distinct nodes, are closed under prefixes, and continue exactly where the nodes'
      children lead. */
  ghost predicate Shape(nodes: map<string, Node>, kids: map<string, map<char, Node>>) {
    && kids.Keys == nodes.Keys
    && (forall p, q | p in nodes && q in nodes && nodes[p] == nodes[q] :: p == q)
    && (forall p, i | p in nodes && 0 <= i <= |p| :: p[..i] in nodes)
    && (forall p, c | p in nodes :: c in kids[p] <==> p + [c] in nodes)
    && (forall p, c | p in nodes && c in kids[p] :: kids[p][c] == nodes[p + [c]])
  }

  lemma ShapeGrows(nodes: map<string, Node>, kids: map<string, map<char, Node>>, p: string, c: char, child: Node)
    requires Shape(nodes, kids) && p in nodes && c !in kids[p]
    requires forall q | q in nodes :: nodes[q] != child
    ensures Shape(nodes[p + [c] := child], kids[p := kids[p][c := child]][p + [c] := map[]])
  {
    var path := p + [c];
    var nodes', kids' := nodes[path := child], kids[p := kids[p][c := child]][path := map[]];
    assert path !in nodes;
    forall q, i | q in nodes' && 0 <= i <= |q| ensures q[..i] in nodes' {
      if q == path { assert q[..i] == if i == |q| then path else p[..i]; }
    }
    forall q, x | q in nodes' ensures x in kids'[q] <==> q + [x] in nodes' {
      assert (q + [x])[..|q|] == q && (q + [x])[|q|] == x;
      assert path[..|p|] == p && path[|p|] == c;
      if q == path { assert q + [x] !in nodes; }
    }
  }

  lemma KidsGrown<V>(kids: map<string, map<char, V>>, kids': map<string, map<char, V>>,
                     p: string, path: string, grown: map<char, V>)
    requires p in kids && path !in kids && kids'.Keys == kids.Keys + {path}
    requires kids'[p] == grown && kids'[path] == map[]
    requires forall q | q in kids && q != p :: kids'[q] == kids[q]
    ensures kids' == kids[p := grown][path := map[]]
  {
  }

  class Dictionary {
    var root: Node
    /** The node at the end of every path from the root, and all nodes together. */
    ghost var nodes: map<string, Node>
    ghost var repr: set<Node>

    ghost predicate InRepr()
      reads this
    {
      forall p | p in nodes :: nodes[p] in repr
    }

    ghost function Kids(): map<string, map<char, Node>>
      requires InRepr()
      reads this, repr
    {
      map p | p in nodes :: nodes[p].children
    }

    ghost predicate Valid()
      reads this, repr
    {
      && InRepr()
      && "" in nodes && nodes[""] == root
      && Shape(nodes, Kids())
    }

    ghost function Words(): set<string>
      requires InRepr()
      reads this, repr
    {
      set p | p in nodes && nodes[p].word
    }

    constructor ()
      ensures Valid() && Words() == {} && fresh(repr)
    {
      var top := new Node();
      root := top;
      nodes := map["" := top];
      repr := {top};
      new;
      assert forall p, c | p in nodes :: c !in nodes[p].children && p + [c] !in nodes;
    }

    /** Hangs a new node below the one at `p`. */
    method Attach(node: Node, ghost p: string, c: char)
      requires InRepr() && p in nodes && nodes[p] == node && p + [c] !in nodes
      modifies this`nodes, this`repr, node`children
      ensures InRepr() && fresh(repr - old(repr)) && old(repr) <= repr
      ensures p + [c] in nodes && fresh(nodes[p + [c]])
      ensures nodes == old(nodes)[p + [c] := nodes[p + [c]]]
      ensures node.children == old(node.children)[c := nodes[p + [c]]]
      ensures nodes[p + [c]].children == map[]
      ensures Words() == old(Words())
    {
      var child := new Node();
      node.children := node.children[c := child];
      nodes, repr := nodes[p + [c] := child], repr + {child};
    }

    /** The same, told about all nodes at once. */
    method AttachBelow(node: Node, ghost p: string, c: char)
      requires InRepr() && p in nodes && nodes[p] == node && p + [c] !in nodes
      requires forall q | q in nodes && nodes[q] == node :: q == p
      modifies this`nodes, this`repr, node`children
      ensures InRepr() && fresh(repr - old(repr)) && old(repr) <= repr
      ensures p + [c] in nodes && fresh(nodes[p + [c]])
      ensures nodes == old(nodes)[p + [c] := nodes[p + [c]]]
      ensures Kids() == old(Kids())[p := old(Kids())[p][c := nodes[p + [c]]]][p + [c] := map[]]
      ensures Words() == old(Words())
    {
      ghost var kids := Kids();
      ghost var paths := nodes;
      Attach(node, p, c);
      assert forall q | q in paths && q != p :: nodes[q].children == kids[q];
      KidsGrown(kids, Kids(), p, p + [c], kids[p][c := nodes[p + [c]]]);
    }

    method Grow(node: Node, ghost p: string, c: char)
      requires Valid() && p in nodes && nodes[p] == node && p + [c] !in nodes && c !in Kids()[p]
      modifies this`nodes, this`repr, node`children
      ensures Valid() && p in nodes && nodes[p] == node && p + [c] in nodes
      ensures Words() == old(Words())
      ensures old(repr) <= repr && fresh(repr - old(repr))
    {
      ghost var paths, kids := nodes, Kids();
      AttachBelow(node, p, c);
      ShapeGrows(paths, kids, p, c, nodes[p + [c]]);
    }

    /** The cursor's child for `c`, made if need be; no word appears or disappears. */
    method Descend(node: Node, ghost p: string, c: char) returns (next: Node)
      requires Valid() && p in nodes && nodes[p] == node
      modifies this`nodes, this`repr, node`children
      ensures Valid() && p + [c] in nodes && nodes[p + [c]] == next
      ensures Words() == old(Words())
      ensures old(repr) <= repr && fresh(repr - old(repr))
    {
      assert node.children == Kids()[p];
      if c !in node.children { Grow(node, p, c); }
      assert node.children == Kids()[p];
      next := node.children[c];
    }

    /** The words are then the old ones and this one. */
    method AddWord(word: string)
      requires Valid()
      modifies this`nodes, this`repr, repr
      ensures Valid()
      ensures Words() == old(Words()) + {word}
      ensures fresh(repr - old(repr))
    {
      var node := root;
      for i := 0 to |word|
        invariant Valid()
        invariant word[..i] in nodes && nodes[word[..i]] == node
        invariant Words() == old(Words())
        invariant fresh(repr - old(repr))
      {
        assert word[..i] + [word[i]] == word[..i + 1];
        node := Descend(node, word[..i], word[i]);
      }
      assert word[..|word|] == word;
      ghost var kids := Kids();
      node.word := true;
      assert Kids() == kids;
    }

    method CheckWord(word: string) returns (found: bool)
      requires Valid()
      ensures found <==> word in Words()
    {
      var node := root;
      for i := 0 to |word|
        invariant word[..i] in nodes && nodes[word[..i]] == node
      {
        assert word[..i] + [word[i]] == word[..i + 1];
        assert node.children == Kids()[word[..i]];
        if word[i] !in node.children {
          assert word[..i + 1] !in nodes;
          return false;
        }
        node := node.children[word[i]];
      }
      assert word[..|word|] == word;
      return node.word;
    }

    /** After any sequence of additions a word checks exactly when it is among them. */
    method AddDictionary(words: seq<string>)
      requires Valid()
      modifies this`nodes, this`repr, repr
      ensures Valid() && Words() == old(Words()) + set w | w in words
      ensures fresh(repr - old(repr))
    {
      for i := 0 to |words|
        invariant Valid() && fresh(repr - old(repr))
        invariant Words() == old(Words()) + set w | w in words[..i]
      {
        assert words[..i + 1] == words[..i] + [words[i]];
        AddWord(words[i]);
      }
      assert words[..|words|] == words;
    }
  }

  /** From an empty trie: the answers are exactly the words added, in whatever order and however often. */
  method LoadAndCheck(words: seq<string>, word: string) returns (found: bool)
    ensures found <==> word in words
  {
    var t := new Dictionary();
    t.AddDictionary(words);
    found := t.CheckWord(word);
  }
}
