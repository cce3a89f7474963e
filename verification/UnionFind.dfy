/** The string-keyed disjoint-set behind the overview's clusters: its groups are the
    classes of the equivalence closure of all unions, and its trees stay shallow
    through path halving and union by size. */
module UnionFind {
  import opened Sequences
  import opened Strings

  type Key = string

  function Pow2(n: nat): nat
  {
    if n == 0 then 1 else 2 * Pow2(n - 1)
  }

  lemma {:induction false} Pow2Monotone(a: nat, b: nat)
    requires a <= b
    ensures Pow2(a) <= Pow2(b)
    decreases b
  {
    if a < b {
      Pow2Monotone(a, b - 1);
    }
  }

  // ---------------------------------------------------------------- connectivity

  /** Two keys joined directly, in either direction. */
  ghost predicate Joined(pairs: set<(Key, Key)>, a: Key, b: Key)
  {
    (a, b) in pairs || (b, a) in pairs
  }

  ghost predicate Path(pairs: set<(Key, Key)>, p: seq<Key>)
  {
    p != [] && forall i | 0 <= i < |p| - 1 :: Joined(pairs, p[i], p[i + 1])
  }

  /** The equivalence closure of the unions made so far. */
  ghost predicate Connected(pairs: set<(Key, Key)>, a: Key, b: Key)
  {
    exists p :: Path(pairs, p) && p[0] == a && p[|p| - 1] == b
  }

  lemma ConnectedSelf(pairs: set<(Key, Key)>, a: Key)
    ensures Connected(pairs, a, a)
  {
    assert Path(pairs, [a]);
  }

  lemma ConnectedBack(pairs: set<(Key, Key)>, a: Key, b: Key)
    requires Connected(pairs, a, b)
    ensures Connected(pairs, b, a)
  {
    var p :| Path(pairs, p) && p[0] == a && p[|p| - 1] == b;
    var q := seq(|p|, i requires 0 <= i < |p| => p[|p| - 1 - i]);
    forall i | 0 <= i < |q| - 1 ensures Joined(pairs, q[i], q[i + 1]) {
      assert Joined(pairs, p[|p| - 2 - i], p[|p| - 2 - i + 1]);
    }
    assert Path(pairs, q);
  }

  lemma ConnectedThrough(pairs: set<(Key, Key)>, a: Key, b: Key, c: Key)
    requires Connected(pairs, a, b) && Connected(pairs, b, c)
    ensures Connected(pairs, a, c)
  {
    var p :| Path(pairs, p) && p[0] == a && p[|p| - 1] == b;
    var q :| Path(pairs, q) && q[0] == b && q[|q| - 1] == c;
    var r := p + q[1..];
    forall i | 0 <= i < |r| - 1 ensures Joined(pairs, r[i], r[i + 1]) {
      if i < |p| - 1 {
        assert Joined(pairs, p[i], p[i + 1]);
      } else {
        assert r[i] == q[i - |p| + 1] && r[i + 1] == q[i - |p| + 2];
        assert Joined(pairs, q[i - |p| + 1], q[i - |p| + 2]);
      }
    }
    assert Path(pairs, r);
  }

  lemma ConnectedMore(pairs: set<(Key, Key)>, more: set<(Key, Key)>, a: Key, b: Key)
    requires pairs <= more && Connected(pairs, a, b)
    ensures Connected(more, a, b)
  {
    var p :| Path(pairs, p) && p[0] == a && p[|p| - 1] == b;
    forall i | 0 <= i < |p| - 1 ensures Joined(more, p[i], p[i + 1]) {
      assert Joined(pairs, p[i], p[i + 1]);
    }
    assert Path(more, p);
  }

  /** A labelling that is constant along every union labels connected keys alike. */
  lemma {:induction false} PathKeepsLabel(pairs: set<(Key, Key)>, root: map<Key, Key>, p: seq<Key>)
    requires Path(pairs, p) && p[0] in root
    requires forall x, y | (x, y) in pairs :: x in root && y in root && root[x] == root[y]
    ensures p[|p| - 1] in root && root[p[|p| - 1]] == root[p[0]]
    decreases |p|
  {
    if |p| > 1 {
      assert Joined(pairs, p[0], p[1]);
      forall i | 0 <= i < |p[1..]| - 1 ensures Joined(pairs, p[1..][i], p[1..][i + 1]) {
        assert Joined(pairs, p[i + 1], p[i + 2]);
      }
      PathKeepsLabel(pairs, root, p[1..]);
    }
  }

  // ---------------------------------------------------------------- the forest

  ghost predicate LabelOf(pairs: set<(Key, Key)>, root: map<Key, Key>, x: Key)
  {
    x in root && root[x] in root && root[root[x]] == root[x] && Connected(pairs, x, root[x])
  }

  /** `root` names each key's class: constant along unions, and connected to the key. */
  ghost predicate Labels(pairs: set<(Key, Key)>, root: map<Key, Key>)
  {
    && (forall x, y | (x, y) in pairs :: x in root && y in root && root[x] == root[y])
    && (forall x {:trigger LabelOf(pairs, root, x)} | x in root :: LabelOf(pairs, root, x))
  }

  /** Labels are alike exactly for connected keys. */
  lemma LabelsDecide(pairs: set<(Key, Key)>, root: map<Key, Key>, a: Key, b: Key)
    requires Labels(pairs, root) && a in root && b in root
    ensures root[a] == root[b] <==> Connected(pairs, a, b)
  {
    assert LabelOf(pairs, root, a) && LabelOf(pairs, root, b);
    if root[a] == root[b] {
      ConnectedBack(pairs, b, root[b]);
      ConnectedThrough(pairs, a, root[a], b);
    }
    if Connected(pairs, a, b) {
      var p :| Path(pairs, p) && p[0] == a && p[|p| - 1] == b;
      PathKeepsLabel(pairs, root, p);
    }
  }

  ghost predicate KeyOf(parent: map<Key, Key>, root: map<Key, Key>, rank: map<Key, nat>, x: Key)
  {
    && x in parent && x in root && x in rank
    && parent[x] in parent && parent[x] in root && parent[x] in rank && root[parent[x]] == root[x]
    && (parent[x] == x <==> root[x] == x)
    && (parent[x] != x ==> rank[x] < rank[parent[x]])
  }

  /** Parents stay within the class and climb a ranking that ends at the root. */
  ghost predicate Forest(parent: map<Key, Key>, root: map<Key, Key>, rank: map<Key, nat>)
  {
    && parent.Keys == root.Keys == rank.Keys
    && (forall x {:trigger KeyOf(parent, root, rank, x)} | x in parent :: KeyOf(parent, root, rank, x))
  }

  ghost function Class(root: map<Key, Key>, r: Key): set<Key>
  {
    set x | x in root && root[x] == r
  }

  /** At a root, the size is the size of the class, and it bounds the rank from above. */
  ghost predicate Sized(root: map<Key, Key>, rank: map<Key, nat>, size: map<Key, nat>)
  {
    root.Keys == rank.Keys == size.Keys &&
    forall r | r in root && root[r] == r :: size[r] == |Class(root, r)| && Pow2(rank[r]) <= size[r]
  }

  /** Every key climbs to its class's root. */
  lemma {:induction false} RankBelowRoot(pairs: set<(Key, Key)>, parent: map<Key, Key>, root: map<Key, Key>,
                                         rank: map<Key, nat>, x: Key)
    requires Labels(pairs, root) && Forest(parent, root, rank) && x in parent
    ensures root[x] in rank && rank[x] <= rank[root[x]]
    decreases RankBound(rank) - rank[x]
  {
    assert KeyOf(parent, root, rank, x) && LabelOf(pairs, root, x);
    RankUnderBound(rank, x);
    if parent[x] != x {
      RankUnderBound(rank, parent[x]);
      RankBelowRoot(pairs, parent, root, rank, parent[x]);
    }
  }

  /** A bound on all ranks. */
  ghost function RankBound(rank: map<Key, nat>): (b: nat)
    ensures forall x | x in rank :: rank[x] <= b
  {
    if rank == map[] then 0
    else
      var x :| x in rank;
      var b := RankBound(rank - {x});
      assert forall y | y in rank && y != x :: y in rank - {x} && rank[y] == (rank - {x})[y];
      if rank[x] > b then rank[x] else b
  }

  lemma RankUnderBound(rank: map<Key, nat>, x: Key)
    requires x in rank
    ensures rank[x] <= RankBound(rank)
  {}

  /** The number of parent links from a key to its root. */
  ghost function Depth(parent: map<Key, Key>, root: map<Key, Key>, rank: map<Key, nat>, x: Key): nat
    requires Forest(parent, root, rank) && x in parent
    decreases RankBound(rank) - rank[x]
  {
    assert KeyOf(parent, root, rank, x);
    RankUnderBound(rank, x);
    RankUnderBound(rank, parent[x]);
    if parent[x] == x then 0 else 1 + Depth(parent, root, rank, parent[x])
  }

  lemma {:induction false} DepthWithinRank(pairs: set<(Key, Key)>, parent: map<Key, Key>, root: map<Key, Key>,
                                           rank: map<Key, nat>, x: Key)
    requires Labels(pairs, root) && Forest(parent, root, rank) && x in parent
    ensures root[x] in rank && Depth(parent, root, rank, x) + rank[x] <= rank[root[x]]
    decreases RankBound(rank) - rank[x]
  {
    assert KeyOf(parent, root, rank, x) && LabelOf(pairs, root, x);
    RankUnderBound(rank, x);
    if parent[x] != x {
      RankUnderBound(rank, parent[x]);
      DepthWithinRank(pairs, parent, root, rank, parent[x]);
    }
  }

  /** The forest as a whole, for the unions made so far. */
  ghost predicate Good(pairs: set<(Key, Key)>, parent: map<Key, Key>, size: map<Key, nat>, root: map<Key, Key>,
      rank: map<Key, nat>)
  {
    Labels(pairs, root) && Forest(parent, root, rank) && Sized(root, rank, size)
  }

  /** A tree of `n` keys is at most log2(n) links deep. */
  lemma DepthIsLogarithmic(pairs: set<(Key, Key)>, parent: map<Key, Key>, size: map<Key, nat>,
                           root: map<Key, Key>, rank: map<Key, nat>, x: Key)
    requires Good(pairs, parent, size, root, rank) && x in parent
    ensures root[x] in size && Pow2(Depth(parent, root, rank, x)) <= size[root[x]] == |Class(root, root[x])|
  {
    assert LabelOf(pairs, root, x);
    DepthWithinRank(pairs, parent, root, rank, x);
    Pow2Monotone(Depth(parent, root, rank, x), rank[root[x]]);
  }

  lemma AddLabels(pairs: set<(Key, Key)>, root: map<Key, Key>, x: Key)
    requires Labels(pairs, root) && x !in root
    ensures Labels(pairs, root[x := x])
  {
    ConnectedSelf(pairs, x);
    var after := root[x := x];
    forall y | y in after ensures LabelOf(pairs, after, y) {
      assert y != x ==> LabelOf(pairs, root, y);
    }
  }

  lemma AddSizes(root: map<Key, Key>, rank: map<Key, nat>, size: map<Key, nat>, x: Key)
    requires Sized(root, rank, size) && x !in root && forall y | y in root :: root[y] in root
    ensures Sized(root[x := x], rank[x := 0], size[x := 1])
  {
    var after := root[x := x];
    assert Class(after, x) == {x};
    forall r | r in root && root[r] == r ensures Class(after, r) == Class(root, r) {}
  }

  lemma AddForest(parent: map<Key, Key>, root: map<Key, Key>, rank: map<Key, nat>, x: Key)
    requires Forest(parent, root, rank) && x !in parent
    ensures Forest(parent[x := x], root[x := x], rank[x := 0])
  {
    var parent', root', rank' := parent[x := x], root[x := x], rank[x := 0];
    forall y | y in parent' ensures KeyOf(parent', root', rank', y) {
      assert y != x ==> KeyOf(parent, root, rank, y);
    }
  }

  lemma AddKeepsGood(pairs: set<(Key, Key)>, parent: map<Key, Key>, size: map<Key, nat>,
                     root: map<Key, Key>, rank: map<Key, nat>, x: Key)
    requires Good(pairs, parent, size, root, rank) && x !in parent
    ensures Good(pairs, parent[x := x], size[x := 1], root[x := x], rank[x := 0])
  {
    AddLabels(pairs, root, x);
    forall y | y in root ensures root[y] in root { assert LabelOf(pairs, root, y); }
    AddSizes(root, rank, size, x);
    AddForest(parent, root, rank, x);
    hide Labels, Forest, Sized;
  }

  /** Path halving: a key may skip to its grandparent. */
  lemma HalvingKeepsForest(parent: map<Key, Key>, root: map<Key, Key>, rank: map<Key, nat>, x: Key)
    requires Forest(parent, root, rank) && x in parent && parent[x] in parent && parent[x] != x
    ensures Forest(parent[x := parent[parent[x]]], root, rank)
  {
    assert KeyOf(parent, root, rank, x) && KeyOf(parent, root, rank, parent[x]);
    var after := parent[x := parent[parent[x]]];
    assert KeyOf(parent, root, rank, parent[parent[x]]);
    forall y | y in after ensures KeyOf(after, root, rank, y) {
      assert KeyOf(parent, root, rank, y);
    }
  }

  ghost function Merged(root: map<Key, Key>, kept: Key, lost: Key): map<Key, Key>
  {
    map x | x in root :: if root[x] == lost then kept else root[x]
  }

  /** A union of two keys connects the roots of their classes, both ways. */
  lemma UnionConnectsRoots(pairs: set<(Key, Key)>, root: map<Key, Key>, a: Key, b: Key)
    requires Labels(pairs, root) && a in root && b in root
    ensures Connected(pairs + {(a, b)}, root[a], root[b]) && Connected(pairs + {(a, b)}, root[b], root[a])
  {
    var more := pairs + {(a, b)};
    assert Connected(more, a, b) by {
      assert Joined(more, a, b);
      assert Path(more, [a, b]) && [a, b][0] == a;
    }
    assert LabelOf(pairs, root, a) && LabelOf(pairs, root, b);
    ConnectedMore(pairs, more, a, root[a]);
    ConnectedMore(pairs, more, b, root[b]);
    hide Connected;
    ConnectedBack(more, a, root[a]);
    ConnectedThrough(more, root[a], a, b);
    ConnectedThrough(more, root[a], b, root[b]);
    ConnectedBack(more, root[a], root[b]);
  }

  lemma MergedLabels(pairs: set<(Key, Key)>, root: map<Key, Key>, a: Key, b: Key, kept: Key, lost: Key)
    requires Labels(pairs, root) && a in root && b in root
    requires (kept == root[a] && lost == root[b]) || (kept == root[b] && lost == root[a])
    ensures Labels(pairs + {(a, b)}, Merged(root, kept, lost))
  {
    var more := pairs + {(a, b)};
    var after := Merged(root, kept, lost);
    UnionConnectsRoots(pairs, root, a, b);
    hide Connected;
    assert LabelOf(pairs, root, a) && LabelOf(pairs, root, b);
    forall x | x in after ensures LabelOf(more, after, x) {
      assert LabelOf(pairs, root, x);
      ConnectedMore(pairs, more, x, root[x]);
      if root[x] == lost {
        ConnectedThrough(more, x, lost, kept);
      }
    }
  }

  lemma MergedSizes(root: map<Key, Key>, rank: map<Key, nat>, size: map<Key, nat>, kept: Key, lost: Key)
    requires Sized(root, rank, size) && kept in root && lost in root && kept != lost
    requires root[kept] == kept && root[lost] == lost && size[lost] <= size[kept]
    ensures Sized(Merged(root, kept, lost), Raised(rank, kept, lost), size[kept := size[kept] + size[lost]])
  {
    var after := Merged(root, kept, lost);
    assert Class(after, kept) == Class(root, kept) + Class(root, lost);
    assert Class(root, kept) !! Class(root, lost);
    forall r | r in after && after[r] == r && r != kept ensures Class(after, r) == Class(root, r) {}
  }

  /** The rank a root has after another root is put under it. */
  ghost function Raised(rank: map<Key, nat>, kept: Key, lost: Key): map<Key, nat>
    requires kept in rank && lost in rank
  {
    rank[kept := if rank[kept] > rank[lost] then rank[kept] else rank[lost] + 1]
  }

  lemma MergedKey(parent: map<Key, Key>, root: map<Key, Key>, rank: map<Key, nat>, kept: Key, lost: Key, y: Key)
    requires KeyOf(parent, root, rank, kept) && KeyOf(parent, root, rank, lost) && KeyOf(parent, root, rank, y)
    requires root[kept] == kept && root[lost] == lost && kept != lost
    ensures KeyOf(parent[lost := kept], Merged(root, kept, lost), Raised(rank, kept, lost), y)
  {}

  lemma MergedForest(parent: map<Key, Key>, root: map<Key, Key>, rank: map<Key, nat>, kept: Key, lost: Key)
    requires Forest(parent, root, rank) && kept in root && lost in root && kept != lost
    requires root[kept] == kept && root[lost] == lost
    ensures Forest(parent[lost := kept], Merged(root, kept, lost), Raised(rank, kept, lost))
  {
    var parent', root', rank' := parent[lost := kept], Merged(root, kept, lost), Raised(rank, kept, lost);
    assert KeyOf(parent, root, rank, kept) && KeyOf(parent, root, rank, lost);
    forall y | y in parent' ensures KeyOf(parent', root', rank', y) {
      MergedKey(parent, root, rank, kept, lost, y);
    }
  }

  /** Union by size: the smaller tree goes under the root of the larger. */
  lemma LinkKeepsGood(pairs: set<(Key, Key)>, parent: map<Key, Key>, size: map<Key, nat>,
                      root: map<Key, Key>, rank: map<Key, nat>, a: Key, b: Key, kept: Key, lost: Key)
    requires Good(pairs, parent, size, root, rank) && a in root && b in root
    requires (kept == root[a] && lost == root[b]) || (kept == root[b] && lost == root[a])
    requires kept != lost && kept in size && lost in size && size[lost] <= size[kept] && kept in rank && lost in rank
    ensures Good(pairs + {(a, b)}, parent[lost := kept], size[kept := size[kept] + size[lost]],
                 Merged(root, kept, lost), Raised(rank, kept, lost))
  {
    assert LabelOf(pairs, root, a) && LabelOf(pairs, root, b);
    MergedLabels(pairs, root, a, b, kept, lost);
    MergedSizes(root, rank, size, kept, lost);
    MergedForest(parent, root, rank, kept, lost);
    hide Labels, Forest, Sized, Merged;
  }

  lemma SameRootLabels(pairs: set<(Key, Key)>, root: map<Key, Key>, a: Key, b: Key)
    requires Labels(pairs, root) && a in root && b in root && root[a] == root[b]
    ensures Labels(pairs + {(a, b)}, root)
  {
    forall x | x in root ensures LabelOf(pairs + {(a, b)}, root, x) {
      assert LabelOf(pairs, root, x);
      ConnectedMore(pairs, pairs + {(a, b)}, x, root[x]);
    }
  }

  /** What a valid forest says of one key. */
  lemma KeyFacts(pairs: set<(Key, Key)>, parent: map<Key, Key>, size: map<Key, nat>,
                 root: map<Key, Key>, rank: map<Key, nat>, x: Key)
    requires Good(pairs, parent, size, root, rank)
    ensures parent.Keys == root.Keys == rank.Keys == size.Keys
    ensures x in parent ==>
      && parent[x] in parent && parent[parent[x]] in parent && root[x] in root
      && root[parent[x]] == root[x] && root[root[x]] == root[x] && root[parent[parent[x]]] == root[x]
      && (parent[x] == x <==> root[x] == x) && parent[root[x]] == root[x]
      && rank[x] <= rank[parent[x]] <= rank[parent[parent[x]]] <= rank[root[x]]
      && (parent[x] != x ==> rank[x] < rank[parent[x]])
      && Pow2(rank[root[x]]) <= size[root[x]]
  {
    if x in parent {
      assert LabelOf(pairs, root, x) && KeyOf(parent, root, rank, x);
      assert KeyOf(parent, root, rank, parent[x]) && KeyOf(parent, root, rank, parent[parent[x]]);
      assert KeyOf(parent, root, rank, root[x]);
      RankBelowRoot(pairs, parent, root, rank, parent[parent[x]]);
    }
  }

  // ---------------------------------------------------------------- the structure

  class UnionFind {
    var parent: map<Key, Key>
    var size: map<Key, nat>
    /** Every union made so far. */
    ghost var pairs: set<(Key, Key)>
    ghost var root: map<Key, Key>
    ghost var rank: map<Key, nat>

    constructor ()
      ensures Valid() && parent == map[] && pairs == {}
    {
      parent, size, pairs, root, rank := map[], map[], {}, map[], map[];
    }

    ghost predicate Valid()
      reads this
    {
      Good(pairs, parent, size, root, rank)
    }

    /** Adds a key as a class of its own, unless it is there already. */
    method Add(x: Key)
      requires Valid()
      modifies this
      ensures Valid() && pairs == old(pairs) && x in parent && parent.Keys == old(parent).Keys + {x}
      ensures root == if x in old(root) then old(root) else old(root)[x := x]
      ensures x in old(parent) ==> parent == old(parent) && size == old(size) && rank == old(rank)
    {
      KeyFacts(pairs, parent, size, root, rank, x);
      hide Good;
      if x !in parent {
        AddKeepsGood(pairs, parent, size, root, rank, x);
        parent, size := parent[x := x], size[x := 1];
        root, rank := root[x := x], rank[x := 0];
      }
    }

    /** The root of a key's class. Classes and sizes stay; paths only get shorter, and
        the walk takes at most log2 of the class size steps. */
    method Find(x: Key) returns (r: Key, ghost hops: nat)
      requires Valid()
      modifies this
      ensures Valid() && pairs == old(pairs) && parent.Keys == old(parent).Keys + {x}
      ensures root == if x in old(root) then old(root) else old(root)[x := x]
      ensures x in root && r == root[x] && r in size
      ensures x in old(parent) ==> size == old(size)
      ensures Pow2(hops) <= size[r]
    {
      hide Good;
      Add(x);
      KeyFacts(pairs, parent, size, root, rank, x);
      r := x;
      hops := 0;
      while parent[r] != r
        invariant Valid() && pairs == old(pairs) && parent.Keys == old(parent).Keys + {x}
        invariant root == if x in old(root) then old(root) else old(root)[x := x]
        invariant x in root && r in parent && r in root && root[r] == root[x] && root[r] in rank && r in rank
        invariant x in old(parent) ==> size == old(size)
        invariant hops <= rank[r] <= rank[root[r]]
        decreases rank[root[r]] as int - rank[r]
      {
        KeyFacts(pairs, parent, size, root, rank, r);
        HalvingKeepsGood(pairs, parent, size, root, rank, r);
        parent := parent[r := parent[parent[r]]];
        r := parent[r];
        hops := hops + 1;
      }
      KeyFacts(pairs, parent, size, root, rank, r);
      Pow2Monotone(hops, rank[r]);
    }

    /** Joins two keys' classes; the sizes of the roots decide which root stays. */
    method Union(a: Key, b: Key)
      requires Valid()
      modifies this
      ensures Valid() && pairs == old(pairs) + {(a, b)} && parent.Keys == old(parent).Keys + {a, b}
    {
      hide Good, Pow2, Class;
      var ra, _ := Find(a);
      var rb, _ := Find(b);
      KeyFacts(pairs, parent, size, root, rank, a);
      KeyFacts(pairs, parent, size, root, rank, b);
      JoinRoots(ra, rb, a, b);
    }

    method JoinRoots(ra: Key, rb: Key, ghost a: Key, ghost b: Key)
      requires Valid() && a in root && b in root && ra == root[a] && rb == root[b]
      requires ra in size && rb in size && ra in parent && rb in parent && ra in rank && rb in rank
      modifies this
      ensures Valid() && pairs == old(pairs) + {(a, b)} && parent.Keys == old(parent).Keys
    {
      hide Good;
      if ra == rb {
        SameRootKeepsGood(pairs, parent, size, root, rank, a, b);
        pairs := pairs + {(a, b)};
      } else if size[ra] < size[rb] {
        Link(rb, ra, a, b);
      } else {
        Link(ra, rb, a, b);
      }
    }

    /** Puts the smaller root under the larger one. */
    method Link(kept: Key, lost: Key, ghost a: Key, ghost b: Key)
      requires Valid() && a in root && b in root && kept != lost
      requires (kept == root[a] && lost == root[b]) || (kept == root[b] && lost == root[a])
      requires kept in size && lost in size && size[lost] <= size[kept] && lost in parent && kept in rank &&
        lost in rank
      modifies this
      ensures Valid() && pairs == old(pairs) + {(a, b)} && parent.Keys == old(parent).Keys
    {
      hide Good, Merged, Raised, Class, Pow2;
      LinkKeepsGood(pairs, parent, size, root, rank, a, b, kept, lost);
      root, rank := Merged(root, kept, lost), Raised(rank, kept, lost);
      parent := parent[lost := kept];
      size := size[kept := size[kept] + size[lost]];
      pairs := pairs + {(a, b)};
    }

    /** Whether `g` lists, under each root, exactly the keys of its class. */
    ghost predicate Grouped(g: map<Key, seq<Key>>, keys: set<Key>)
      reads `root
    {
      && (forall r | r in g :: Distinct(g[r]) && g[r] != [] && forall x | x in g[r] ::
        x in keys && x in root && root[x] == r)
      && (forall x | x in keys :: x in root && root[x] in g && x in g[root[x]])
    }

    /** All keys by class: two keys are listed together exactly when the unions connect them. */
    method Groups() returns (g: map<Key, seq<Key>>)
      requires Valid()
      modifies this
      ensures Valid() && pairs == old(pairs) && parent.Keys == old(parent).Keys
      ensures Partition(g, parent.Keys, pairs)
    {
      hide Good;
      g := map[];
      var left := parent.Keys;
      while left != {}
        invariant Valid() && pairs == old(pairs) && parent.Keys == old(parent).Keys
        invariant left <= parent.Keys && Grouped(g, parent.Keys - left)
        decreases left
      {
        var x :| x in left;
        KeyFacts(pairs, parent, size, root, rank, x);
        var r, _ := Find(x);
        ExtendGroups(g, parent.Keys - left, x);
        g := g[r := (if r in g then g[r] else []) + [x]];
        assert parent.Keys - left + {x} == parent.Keys - (left - {x});
        left := left - {x};
      }
      assert parent.Keys - left == parent.Keys;
      GroupedIsPartition(g);
    }

    lemma ExtendGroups(g: map<Key, seq<Key>>, keys: set<Key>, x: Key)
      requires Grouped(g, keys) && x in root && x !in keys
      ensures Grouped(g[root[x] := (if root[x] in g then g[root[x]] else []) + [x]], keys + {x})
    {}

    lemma GroupedIsPartition(g: map<Key, seq<Key>>)
      requires Valid() && Grouped(g, parent.Keys)
      ensures Partition(g, parent.Keys, pairs)
    {
      hide Connected;
      forall r, x, y | r in g && x in g[r] && y in parent ensures y in g[r] <==> Connected(pairs, x, y) {
        RootsDecide(pairs, parent, size, root, rank, x, y);
      }
    }
  }

  /** The groups are the connectivity classes of the keys: every key is listed, and
      two keys are listed together exactly when the unions connect them. */
  ghost predicate Partition(g: map<Key, seq<Key>>, keys: set<Key>, pairs: set<(Key, Key)>)
  {
    && (forall r | r in g :: Distinct(g[r]) && g[r] != [] && forall x | x in g[r] :: x in keys)
    && (forall x | x in keys :: exists r :: r in g && x in g[r])
    && (forall r, q, x | r in g && q in g && x in g[r] && x in g[q] :: r == q)
    && (forall r, x, y | r in g && x in g[r] && y in keys :: y in g[r] <==> Connected(pairs, x, y))
  }

  lemma RootsDecide(pairs: set<(Key, Key)>, parent: map<Key, Key>, size: map<Key, nat>,
                    root: map<Key, Key>, rank: map<Key, nat>, a: Key, b: Key)
    requires Good(pairs, parent, size, root, rank) && a in root && b in root
    ensures root[a] == root[b] <==> Connected(pairs, a, b)
  {
    LabelsDecide(pairs, root, a, b);
  }

  lemma HalvingKeepsGood(pairs: set<(Key, Key)>, parent: map<Key, Key>, size: map<Key, nat>,
                         root: map<Key, Key>, rank: map<Key, nat>, x: Key)
    requires Good(pairs, parent, size, root, rank) && x in parent && parent[x] in parent && parent[x] != x
    ensures Good(pairs, parent[x := parent[parent[x]]], size, root, rank)
  {
    HalvingKeepsForest(parent, root, rank, x);
  }

  lemma SameRootKeepsGood(pairs: set<(Key, Key)>, parent: map<Key, Key>, size: map<Key, nat>,
                          root: map<Key, Key>, rank: map<Key, nat>, a: Key, b: Key)
    requires Good(pairs, parent, size, root, rank) && a in root && b in root && root[a] == root[b]
    ensures Good(pairs + {(a, b)}, parent, size, root, rank)
  {
    SameRootLabels(pairs, root, a, b);
  }

  // ---------------------------------------------------------------- clusters

  /** `c` lists, in ascending order, exactly the keys connected to its first. */
  ghost predicate IsClass(c: seq<Key>, keys: set<Key>, pairs: set<(Key, Key)>)
  {
    c != [] && Ascending(c) && c[0] in keys && forall y :: y in c <==> y in keys && Connected(pairs, c[0], y)
  }

  method Sorted(members: seq<Key>) returns (r: seq<Key>)
    requires Distinct(members)
    ensures Ascending(r) && multiset(r) == multiset(members)
  {
    r := [];
    for i := 0 to |members|
      invariant Ascending(r) && multiset(r) == multiset(members[..i])
    {
      assert members[..i + 1] == members[..i] + [members[i]];
      assert members[i] !in members[..i];
      assert members[i] !in multiset(r);
      r := Insert(members[i], r);
    }
    assert members[..|members|] == members;
  }

  function PairsOf(edges: seq<(Key, Key)>): set<(Key, Key)>
  {
    set e | e in edges
  }

  function KeysOf(files: seq<Key>, edges: seq<(Key, Key)>): set<Key>
  {
    (set f | f in files) + (set e | e in edges :: e.0) + (set e | e in edges :: e.1)
  }

  /** The overview's clusters: each is a whole connectivity class of two or more files,
      and every file connected to another one is in some cluster. */
  method Clusters(files: seq<Key>, edges: seq<(Key, Key)>) returns (clusters: seq<seq<Key>>)
    ensures forall c | c in clusters :: |c| >= 2 && IsClass(c, KeysOf(files, edges), PairsOf(edges))
    ensures Disjoint(clusters)
    ensures forall x, y | x in KeysOf(files, edges) && y in KeysOf(files, edges) && x != y &&
      Connected(PairsOf(edges), x, y) ::
      exists c :: c in clusters && x in c && y in c
  {
    var uf := Build(files, edges);
    var g := uf.Groups();
    clusters := ClustersOf(g, uf.parent.Keys, PairsOf(edges));
  }

  method Build(files: seq<Key>, edges: seq<(Key, Key)>) returns (uf: UnionFind)
    ensures fresh(uf) && uf.Valid() && uf.parent.Keys == KeysOf(files, edges) && uf.pairs == PairsOf(edges)
  {
    hide Good;
    uf := new UnionFind();
    for i := 0 to |files|
      invariant fresh(uf) && uf.Valid() && uf.pairs == {} && uf.parent.Keys == set f | f in files[..i]
    {
      uf.Add(files[i]);
      assert files[..i + 1] == files[..i] + [files[i]];
    }
    assert files[..|files|] == files;
    for i := 0 to |edges|
      invariant fresh(uf) && uf.Valid() && uf.pairs == PairsOf(edges[..i]) &&
        uf.parent.Keys == KeysOf(files, edges[..i])
    {
      var e := edges[i];
      uf.Union(e.0, e.1);
      KeysGrow(files, edges, i);
    }
    assert edges[..|edges|] == edges;
  }

  lemma KeysGrow(files: seq<Key>, edges: seq<(Key, Key)>, i: nat)
    requires i < |edges|
    ensures PairsOf(edges[..i + 1]) == PairsOf(edges[..i]) + {(edges[i].0, edges[i].1)}
    ensures KeysOf(files, edges[..i + 1]) == KeysOf(files, edges[..i]) + {edges[i].0, edges[i].1}
  {
    assert edges[..i + 1] == edges[..i] + [edges[i]];
    var s, t := set e | e in edges[..i] :: e.0, set e | e in edges[..i + 1] :: e.0;
    assert t == s + {edges[i].0};
    var u, v := set e | e in edges[..i] :: e.1, set e | e in edges[..i + 1] :: e.1;
    assert v == u + {edges[i].1};
  }

  ghost predicate Listed(clusters: seq<seq<Key>>, members: seq<Key>)
  {
    exists c :: c in clusters && multiset(c) == multiset(members)
  }

  lemma ListedStays(clusters: seq<seq<Key>>, c: seq<Key>, members: seq<Key>)
    requires Listed(clusters, members) || multiset(c) == multiset(members)
    ensures Listed(clusters + [c], members)
  {
    if Listed(clusters, members) {
      var b :| b in clusters && multiset(b) == multiset(members);
      assert b in clusters + [c];
    } else {
      assert c in clusters + [c];
    }
  }

  /** No key is in two clusters. */
  ghost predicate Disjoint(clusters: seq<seq<Key>>)
  {
    forall i, j, x | 0 <= i < j < |clusters| && x in clusters[i] :: x !in clusters[j]
  }

  /** Each cluster lists the members of its own group. */
  ghost predicate Sources(g: map<Key, seq<Key>>, clusters: seq<seq<Key>>, from: seq<Key>)
  {
    |from| == |clusters| && Distinct(from) &&
    forall i | 0 <= i < |from| :: from[i] in g && multiset(clusters[i]) == multiset(g[from[i]])
  }

  lemma SourcesGrow(g: map<Key, seq<Key>>, clusters: seq<seq<Key>>, from: seq<Key>, c: seq<Key>, r: Key)
    requires Sources(g, clusters, from) && r in g && r !in from && multiset(c) == multiset(g[r])
    ensures Sources(g, clusters + [c], from + [r])
  {}

  lemma InSource(g: map<Key, seq<Key>>, clusters: seq<seq<Key>>, from: seq<Key>, i: nat, x: Key)
    requires Sources(g, clusters, from) && i < |from|
    ensures x in clusters[i] <==> x in g[from[i]]
  {
    assert x in clusters[i] <==> x in multiset(clusters[i]);
    assert x in g[from[i]] <==> x in multiset(g[from[i]]);
  }

  lemma SourcesAreDisjoint(g: map<Key, seq<Key>>, keys: set<Key>, pairs: set<(Key, Key)>,
                           clusters: seq<seq<Key>>, from: seq<Key>)
    requires Partition(g, keys, pairs) && Sources(g, clusters, from)
    ensures Disjoint(clusters)
  {
    hide Connected;
    forall i, j, x | 0 <= i < j < |clusters| && x in clusters[i] ensures x !in clusters[j] {
      InSource(g, clusters, from, i, x);
      InSource(g, clusters, from, j, x);
    }
  }

  method ClustersOf(g: map<Key, seq<Key>>, ghost keys: set<Key>,
      ghost pairs: set<(Key, Key)>) returns (clusters: seq<seq<Key>>)
    requires Partition(g, keys, pairs)
    ensures forall c | c in clusters :: |c| >= 2 && IsClass(c, keys, pairs)
    ensures Disjoint(clusters)
    ensures forall x, y | x in keys && y in keys && x != y && Connected(pairs, x, y) ::
      exists c :: c in clusters && x in c && y in c
  {
    hide Connected, IsClass, Partition, Disjoint;
    clusters := [];
    ghost var from: seq<Key> := [];
    var left := g.Keys;
    while left != {}
      invariant left <= g.Keys
      invariant forall c | c in clusters :: |c| >= 2 && IsClass(c, keys, pairs)
      invariant forall r | r in g && r !in left && |g[r]| >= 2 :: Listed(clusters, g[r])
      invariant Sources(g, clusters, from) && forall r | r in from :: r !in left
      decreases left
    {
      hide Listed, Sources;
      var r :| r in left;
      left := left - {r};
      if |g[r]| >= 2 {
        GroupIsDistinct(g, keys, pairs, r);
        var c := Sorted(g[r]);
        SortedIsClass(g, keys, pairs, r, c);
        forall q | q in g && q !in left && |g[q]| >= 2 ensures Listed(clusters + [c], g[q]) {
          ListedStays(clusters, c, g[q]);
        }
        SourcesGrow(g, clusters, from, c, r);
        clusters, from := clusters + [c], from + [r];
      }
    }
    SourcesAreDisjoint(g, keys, pairs, clusters, from);
    AllListed(g, keys, pairs, clusters);
  }

  lemma AllListed(g: map<Key, seq<Key>>, keys: set<Key>, pairs: set<(Key, Key)>, clusters: seq<seq<Key>>)
    requires Partition(g, keys, pairs) && forall r | r in g && |g[r]| >= 2 :: Listed(clusters, g[r])
    ensures forall x, y | x in keys && y in keys && x != y && Connected(pairs, x, y) ::
      exists c :: c in clusters && x in c && y in c
  {
    hide Connected;
    forall x, y | x in keys && y in keys && x != y && Connected(pairs, x, y)
      ensures exists c :: c in clusters && x in c && y in c
    {
      var r :| r in g && x in g[r];
      assert y in g[r];
      assert |g[r]| >= 2;
      var c :| c in clusters && multiset(c) == multiset(g[r]);
      assert x in multiset(c) && y in multiset(c);
    }
  }

  lemma GroupIsDistinct(g: map<Key, seq<Key>>, keys: set<Key>, pairs: set<(Key, Key)>, r: Key)
    requires Partition(g, keys, pairs) && r in g
    ensures Distinct(g[r])
  {}

  lemma SortedIsClass(g: map<Key, seq<Key>>, keys: set<Key>, pairs: set<(Key, Key)>, r: Key, c: seq<Key>)
    requires Partition(g, keys, pairs) && r in g && Ascending(c) && multiset(c) == multiset(g[r])
    ensures |c| == |g[r]| && IsClass(c, keys, pairs)
  {
    assert forall x :: x in c <==> x in multiset(c);
    assert forall x :: x in g[r] <==> x in multiset(g[r]);
    assert |c| == |multiset(c)| && |g[r]| == |multiset(g[r])|;
    assert c[0] in g[r];
  }
}
