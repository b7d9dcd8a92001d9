/** The keyword trie: a heap of nodes that insertion extends and `Scan` walks. */
module Trie {
  import opened Prelude
  import opened KeywordSearch

  type Path = seq<Text>

  /** `path` spells the node from the root; `parent` is the node that lists it as a child. */
  class TrieNode {
    var children: map<Text, TrieNode>
    var terminals: seq<Pair>
    ghost const path: Path
    ghost const parent: TrieNode?

    constructor (ghost path: Path, ghost parent: TrieNode?)
      ensures children == map[] && terminals == []
      ensures this.path == path && this.parent == parent
    {
      children := map[];
      terminals := [];
      this.path := path;
      this.parent := parent;
    }
  }

  /** The pairs whose keyword ends at the node of path `p`, in insertion order. */
  function TerminalsAt(pairs: seq<Pair>, p: Path): seq<Pair> {
    if pairs == [] then []
    else (if CodePoints(pairs[0].keyword) == p then [pairs[0]] else []) + TerminalsAt(pairs[1..], p)
  }

  lemma {:induction false} TerminalsAppend(pairs: seq<Pair>, x: Pair, p: Path)
    ensures TerminalsAt(pairs + [x], p) ==
            TerminalsAt(pairs, p) + (if CodePoints(x.keyword) == p then [x] else [])
  {
    if pairs == [] {
      assert pairs + [x] == [x];
    } else {
      hide CodePoints;
      assert (pairs + [x])[1..] == pairs[1..] + [x];
      TerminalsAppend(pairs[1..], x, p);
      var tail := if CodePoints(x.keyword) == p then [x] else [];
      assert ([pairs[0]] + TerminalsAt(pairs[1..], p)) + tail == [pairs[0]] + (TerminalsAt(pairs[1..], p) + tail);
    }
  }

  lemma {:induction false} NoTerminals(pairs: seq<Pair>, p: Path)
    requires forall i :: 0 <= i < |pairs| ==> CodePoints(pairs[i].keyword) != p
    ensures TerminalsAt(pairs, p) == []
  {
    if pairs != [] {
      NoTerminals(pairs[1..], p);
    }
  }

  datatype Dimension = Dimension(name: string, keywords: seq<Text>)

  function PairsOf(keywords: seq<Text>, name: string, toLower: Text -> Text): seq<Pair> {
    seq(|keywords|, i requires 0 <= i < |keywords| => Pair(toLower(keywords[i]), name))
  }

  /** The (keyword, dimension) pairs in the order the constructor inserts them. */
  function AllPairs(dimensions: seq<Dimension>, toLower: Text -> Text): seq<Pair> {
    if dimensions == [] then []
    else
      var last := dimensions[|dimensions| - 1];
      AllPairs(dimensions[..|dimensions| - 1], toLower) + PairsOf(last.keywords, last.name, toLower)
  }

  class KeywordTrie {
    const toLower: Text -> Text
    var root: TrieNode
    var keywordCount: nat

    /** All nodes, the pairs inserted so far, and the node each of them ended at. */
    ghost var nodes: set<TrieNode>
    ghost var pairs: seq<Pair>
    ghost var homes: seq<TrieNode>

    /** A child is a node whose path is one step longer. */
    ghost predicate ChildrenOf(n: TrieNode)
      reads this, n
    {
      forall k | k in n.children :: n.children[k] in nodes && n.children[k].path == n.path + [k]
    }

    /** Every node but the root hangs in its parent under the last step of its path. */
    ghost predicate HangsIn(n: TrieNode)
      reads this, nodes
    {
      n != root ==>
        && n.parent != null && n.parent in nodes && n.path != []
        && n.path == n.parent.path + [n.path[|n.path| - 1]]
        && n.path[|n.path| - 1] in n.parent.children && n.parent.children[n.path[|n.path| - 1]] == n
    }

    ghost predicate Linked()
      reads this, nodes
    {
      && root in nodes && root.path == []
      && (forall n {:trigger ChildrenOf(n)} | n in nodes :: ChildrenOf(n))
      && (forall n {:trigger HangsIn(n)} | n in nodes :: HangsIn(n))
    }

    ghost predicate TerminalsOf(n: TrieNode)
      reads this, n
    {
      n.terminals == TerminalsAt(pairs, n.path)
    }

    ghost predicate HomeOf(i: nat)
      reads this
      requires i < |homes| && i < |pairs|
    {
      homes[i] in nodes && homes[i].path == CodePoints(pairs[i].keyword)
    }

    ghost predicate Filled()
      reads this, nodes
    {
      && (forall n {:trigger TerminalsOf(n)} | n in nodes :: TerminalsOf(n))
      && |homes| == |pairs|
      && (forall i: nat {:trigger HomeOf(i)} | i < |pairs| :: HomeOf(i))
    }

    ghost predicate Valid()
      reads this, nodes
    {
      Linked() && Filled() && keywordCount == |pairs|
    }

    constructor (dimensions: seq<Dimension>, toLower: Text -> Text)
      ensures Valid() && fresh(nodes)
      ensures this.toLower == toLower
      ensures pairs == AllPairs(dimensions, toLower)
    {
      this.toLower := toLower;
      keywordCount := 0;
      var node := new TrieNode([], null);
      root := node;
      nodes := {node};
      pairs, homes := [], [];
      new;
      var d := 0;
      while d < |dimensions|
        invariant d <= |dimensions| && Valid() && fresh(nodes)
        invariant pairs == AllPairs(dimensions[..d], toLower)
      {
        InsertAll(dimensions[d]);
        assert dimensions[..d + 1][..d] == dimensions[..d];
        d := d + 1;
      }
      assert dimensions[..d] == dimensions;
    }

    /** The constructor's inner loop. */
    method InsertAll(dim: Dimension)
      requires Valid()
      modifies this, nodes
      ensures Valid() && fresh(nodes - old(nodes))
      ensures pairs == old(pairs) + PairsOf(dim.keywords, dim.name, toLower)
    {
      var i := 0;
      while i < |dim.keywords|
        invariant i <= |dim.keywords| && Valid() && fresh(nodes - old(nodes))
        invariant pairs == old(pairs) + PairsOf(dim.keywords, dim.name, toLower)[..i]
      {
        var keyword := toLower(dim.keywords[i]);
        Insert(keyword, keyword, dim.name);
        i := i + 1;
      }
    }

    /** No two nodes have the same path. */
    lemma PathsAreUnique(m: TrieNode, n: TrieNode)
      requires Linked() && m in nodes && n in nodes && m.path == n.path
      ensures m == n
      decreases |m.path|
    {
      assert HangsIn(m) && HangsIn(n);
      if m != root && n != root {
        assert m.parent.path == m.path[..|m.path| - 1] && n.parent.path == n.path[..|n.path| - 1];
        PathsAreUnique(m.parent, n.parent);
      }
    }

    /** A missing child cuts off every longer path. */
    lemma NothingBelow(n: TrieNode, k: Text, m: TrieNode)
      requires Linked() && n in nodes && k !in n.children && m in nodes
      ensures !(n.path + [k] <= m.path)
      decreases |m.path|
    {
      if n.path + [k] <= m.path {
        assert HangsIn(m);
        assert m.parent.path == m.path[..|m.path| - 1];
        if |m.path| == |n.path| + 1 {
          assert m.path == n.path + [k];
          PathsAreUnique(m.parent, n);
        } else {
          NothingBelow(n, k, m.parent);
        }
      }
    }

    lemma NoTerminalsBelow(n: TrieNode, k: Text, p: Path)
      requires Valid() && n in nodes && k !in n.children && n.path + [k] <= p
      ensures TerminalsAt(pairs, p) == []
    {
      forall i: nat | i < |pairs| ensures CodePoints(pairs[i].keyword) != p {
        assert HomeOf(i);
        NothingBelow(n, k, homes[i]);
      }
      NoTerminals(pairs, p);
    }

    /** createNode and `children.set`. */
    method AddChild(node: TrieNode, ch: Text) returns (child: TrieNode)
      requires Valid() && node in nodes && ch !in node.children
      modifies node, `nodes
      ensures Valid() && fresh(child) && nodes == old(nodes) + {child}
      ensures child.path == node.path + [ch] && pairs == old(pairs)
    {
      NoTerminalsBelow(node, ch, node.path + [ch]);
      child := new TrieNode(node.path + [ch], node);
      node.children := node.children[ch := child];
      nodes := nodes + {child};
      forall n | n in nodes ensures ChildrenOf(n) && HangsIn(n) && TerminalsOf(n) {
        if n != child { assert old(ChildrenOf(n)) && old(HangsIn(n)) && old(TerminalsOf(n)); }
      }
      forall i: nat | i < |pairs| ensures HomeOf(i) {
        assert old(HomeOf(i));
      }
    }

    method Insert(chars: Text, keyword: Text, dimension: string)
      requires Valid() && chars == keyword
      modifies this, nodes
      ensures Valid() && fresh(nodes - old(nodes))
      ensures pairs == old(pairs) + [Pair(keyword, dimension)]
    {
      var node := root;
      var points := CodePoints(chars);
      var i := 0;
      while i < |points|
        invariant i <= |points| && Valid() && fresh(nodes - old(nodes))
        invariant pairs == old(pairs)
        invariant node in nodes && node.path == points[..i]
      {
        var ch := points[i];
        assert points[..i + 1] == points[..i] + [ch];
        assert ChildrenOf(node);
        if ch !in node.children {
          node := AddChild(node, ch);
        } else {
          node := node.children[ch];
        }
        i := i + 1;
      }
      assert points[..i] == points;
      AddTerminal(node, Pair(keyword, dimension));
    }

    /** `terminals.push` at the end of the keyword's path. */
    method AddTerminal(node: TrieNode, x: Pair)
      requires Valid() && node in nodes && node.path == CodePoints(x.keyword)
      modifies node`terminals, this
      ensures Valid() && nodes == old(nodes) && pairs == old(pairs) + [x]
    {
      forall n | n in nodes && n.path == node.path ensures n == node {
        PathsAreUnique(n, node);
      }
      node.terminals := node.terminals + [x];
      keywordCount := keywordCount + 1;
      pairs, homes := pairs + [x], homes + [node];
      forall n | n in nodes ensures ChildrenOf(n) && HangsIn(n) && TerminalsOf(n) {
        assert old(ChildrenOf(n)) && old(HangsIn(n)) && old(TerminalsOf(n));
        TerminalsAppend(old(pairs), x, n.path);
        assert n.path == node.path ==> n == node;
      }
      forall i: nat | i < |pairs| ensures HomeOf(i) {
        if i < |old(pairs)| { assert old(HomeOf(i)); }
      }
    }

    /** Below a missing child no longer stretch of the text spells an inserted keyword. */
    lemma NoMatchesBelow(n: TrieNode, t: Text, len: nat, i: nat, j: nat, e: nat)
      requires Valid() && n in nodes && i <= j <= e <= len <= |t| && j < len
      requires n.path == Units(t[i..j]) && [t[j]] !in n.children
      ensures MatchesFrom(Reachable(pairs), t, len, i, e) == []
      decreases len - e
    {
      if e < len {
        NoMatchesBelow(n, t, len, i, j, e + 1);
        assert n.path + [[t[j]]] <= Units(t[i..e + 1]);
        NoTerminalsBelow(n, [t[j]], Units(t[i..e + 1]));
        SpelledIsTerminals(pairs, t[i..e + 1], i);
      }
    }

    /** One step of the walk: what the node reached by `lower[i..j + 1]` contributes. */
    lemma StepMatches(n: TrieNode, t: Text, len: nat, i: nat, j: nat)
      requires Valid() && n in nodes && i <= j < len <= |t| && n.path == Units(t[i..j + 1])
      ensures MatchesFrom(Reachable(pairs), t, len, i, j) ==
              (if BoundaryAfter(t, len, j + 1) then AsMatches(n.terminals, i) else [])
              + MatchesFrom(Reachable(pairs), t, len, i, j + 1)
    {
      assert TerminalsOf(n);
      SpelledIsTerminals(pairs, t[i..j + 1], i);
    }

    /** The walk down from the root along the text that starts at `i`. */
    method ScanFrom(lower: Text, len: nat, i: nat, found: seq<Match>) returns (matches: seq<Match>)
      requires Valid() && i < len <= |lower|
      ensures matches == found + MatchesFrom(Reachable(pairs), lower, len, i, i)
    {
      hide MatchesFrom, Reachable;
      ghost var all := found + MatchesFrom(Reachable(pairs), lower, len, i, i);
      matches := found;
      var node, j := root, i;
      while j < len
        invariant i <= j <= len && node in nodes && node.path == Units(lower[i..j])
        invariant matches + MatchesFrom(Reachable(pairs), lower, len, i, j) == all
      {
        assert ChildrenOf(node) && Units(lower[i..j + 1]) == Units(lower[i..j]) + [[lower[j]]];
        if [lower[j]] !in node.children {
          NoMatchesBelow(node, lower, len, i, j, j);
          return;
        }
        node := node.children[[lower[j]]];
        StepMatches(node, lower, len, i, j);
        if |node.terminals| > 0 && (j + 1 >= len || !IsWordCharCode(lower[j + 1])) {
          matches := Push(matches, node.terminals, i);
        }
        j := j + 1;
      }
      NoMatchesAtEnd(Reachable(pairs), lower, len, i);
    }

    /** The scan is the naive triple loop over the keywords that a walk by code units can reach. */
    method Scan(text: Text) returns (matches: seq<Match>)
      requires Valid()
      ensures matches == NaiveScan(Reachable(pairs), toLower(text))
    {
      hide Naive, MatchesFrom, Reachable, Valid;
      var lower := toLower(text);
      var len := if |lower| < MAX_SCAN_LENGTH then |lower| else MAX_SCAN_LENGTH;
      ghost var reachable := Reachable(pairs);
      ghost var all := Naive(reachable, lower, len, 0);
      matches := [];
      assert matches + all == all;
      var i := 0;
      while i < len
        invariant i <= len
        invariant matches + Naive(reachable, lower, len, i) == all
      {
        NaiveStep(reachable, lower, len, i, matches);
        if i > 0 && IsWordCharCode(lower[i - 1]) {
          i := i + 1;
          continue;
        }
        matches := ScanFrom(lower, len, i, matches);
        i := i + 1;
      }
      NaiveStep(reachable, lower, len, i, matches);
    }
  }

  lemma NaiveStep(pairs: seq<Pair>, t: Text, len: nat, i: nat, found: seq<Match>)
    requires i <= len <= |t|
    ensures i < len && BoundaryBefore(t, i) ==>
            found + Naive(pairs, t, len, i) == (found + MatchesFrom(pairs, t, len, i, i)) + Naive(pairs, t, len, i + 1)
    ensures i < len && !BoundaryBefore(t, i) ==> found + Naive(pairs, t, len, i) == found + Naive(pairs, t, len, i + 1)
    ensures i == len ==> found + Naive(pairs, t, len, i) == found
  {
    hide MatchesFrom;
  }

  lemma NoMatchesAtEnd(pairs: seq<Pair>, t: Text, len: nat, i: nat)
    requires i <= len <= |t|
    ensures MatchesFrom(pairs, t, len, i, len) == []
  {
  }

  /** The innermost loop of the scan. */
  method Push(matches: seq<Match>, terminals: seq<Pair>, position: nat) returns (r: seq<Match>)
    ensures r == matches + AsMatches(terminals, position)
  {
    r := matches;
    var k := 0;
    while k < |terminals|
      invariant k <= |terminals| && r + AsMatches(terminals[k..], position) == matches + AsMatches(terminals, position)
    {
      r := r + [Match(terminals[k].keyword, terminals[k].dimension, position)];
      k := k + 1;
    }
  }

  function AsMatches(terminals: seq<Pair>, position: nat): seq<Match> {
    if terminals == [] then []
    else [Match(terminals[0].keyword, terminals[0].dimension, position)] + AsMatches(terminals[1..], position)
  }

  lemma {:induction false} SpelledIsTerminals(pairs: seq<Pair>, word: Text, position: nat)
    ensures Spelled(Reachable(pairs), word, position) == AsMatches(TerminalsAt(pairs, Units(word)), position)
  {
    if pairs != [] {
      hide CodePoints, Units;
      SpelledIsTerminals(pairs[1..], word, position);
      PathOfUnits(pairs[0].keyword, word);
      if Plain(pairs[0].keyword) {
        assert Reachable(pairs)[1..] == Reachable(pairs[1..]);
      } else {
        assert Reachable(pairs) == Reachable(pairs[1..]);
      }
      if CodePoints(pairs[0].keyword) == Units(word) {
        assert TerminalsAt(pairs, Units(word)) == [pairs[0]] + TerminalsAt(pairs[1..], Units(word));
      } else {
        assert TerminalsAt(pairs, Units(word)) == TerminalsAt(pairs[1..], Units(word));
      }
    }
  }
}
