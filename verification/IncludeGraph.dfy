/** Include edges between files, walks along them, and orders that rule cycles out. */
module IncludeGraph {
  import opened Sequences

  type Node = string

  datatype Edge = Edge(src: Node, dst: Node)

  /** The targets of a node's edges, in edge order. */
  function Targets(edges: seq<Edge>, n: Node): seq<Node>
  {
    if edges == [] then []
    else
      var front := Targets(edges[..|edges| - 1], n);
      var last := edges[|edges| - 1];
      if last.src == n then front + [last.dst] else front
  }

  lemma {:induction false} TargetsAreEdges(edges: seq<Edge>, n: Node, m: Node)
    ensures m in Targets(edges, n) <==> Edge(n, m) in edges
  {
    if edges != [] {
      var front, last := edges[..|edges| - 1], edges[|edges| - 1];
      TargetsAreEdges(front, n, m);
      assert edges == front + [last];
    }
  }

  ghost predicate Step(edges: seq<Edge>, n: Node, m: Node)
  {
    Edge(n, m) in edges
  }

  ghost predicate Walk(edges: seq<Edge>, c: seq<Node>)
  {
    forall i | 0 <= i < |c| - 1 :: Step(edges, c[i], c[i + 1])
  }

  ghost predicate ClosedWalk(edges: seq<Edge>, c: seq<Node>)
  {
    c != [] && Walk(edges, c) && Step(edges, c[|c| - 1], c[0])
  }

  /** A closed walk through at least two distinct files. */
  ghost predicate Cyclic(edges: seq<Edge>, c: seq<Node>)
  {
    ClosedWalk(edges, c) && exists i, j :: 0 <= i < |c| && 0 <= j < |c| && c[i] != c[j]
  }

  /** A simple cycle of at least two files. */
  ghost predicate SimpleCycle(edges: seq<Edge>, c: seq<Node>)
  {
    ClosedWalk(edges, c) && Distinct(c) && |c| >= 2
  }

  /** Simple cycles are cyclic walks. */
  lemma SimpleIsCyclic(edges: seq<Edge>, c: seq<Node>)
    requires SimpleCycle(edges, c)
    ensures Cyclic(edges, c)
  {
    assert c[0] != c[1];
  }

  // ---------------------------------------------------------------- taking edges away

  /** The step from `n` to `m` closes one of the cycles. */
  ghost predicate Closes(cycles: seq<seq<Node>>, n: Node, m: Node)
  {
    exists c :: c in cycles && |c| >= 2 && c[|c| - 1] == n && c[0] == m
  }

  /** The edges that close none of the cycles. */
  ghost function Without(edges: seq<Edge>, cycles: seq<seq<Node>>): seq<Edge>
  {
    if edges == [] then []
    else
      var front, last := Without(edges[..|edges| - 1], cycles), edges[|edges| - 1];
      if Closes(cycles, last.src, last.dst) then front else front + [last]
  }

  lemma {:induction false} StepsWithout(edges: seq<Edge>, cycles: seq<seq<Node>>, n: Node, m: Node)
    ensures Step(Without(edges, cycles), n, m) <==> Step(edges, n, m) && !Closes(cycles, n, m)
  {
    hide Closes;
    if edges != [] {
      var front, last := edges[..|edges| - 1], edges[|edges| - 1];
      StepsWithout(front, cycles, n, m);
      assert edges == front + [last];
    }
  }

  lemma ClosesGrows(before: seq<seq<Node>>, after: seq<seq<Node>>, n: Node, m: Node)
    requires before <= after && Closes(before, n, m)
    ensures Closes(after, n, m)
  {
    var c :| c in before && |c| >= 2 && c[|c| - 1] == n && c[0] == m;
    assert c in after;
  }

  /** Taking fewer edges away keeps every cyclic walk. */
  lemma FewerTakenAway(edges: seq<Edge>, cycles: seq<seq<Node>>, more: seq<seq<Node>>, c: seq<Node>)
    requires forall n, m | Closes(cycles, n, m) :: Closes(more, n, m)
    requires Cyclic(Without(edges, more), c)
    ensures Cyclic(Without(edges, cycles), c)
  {
    hide Closes, Without;
    forall n, m | Step(Without(edges, more), n, m) ensures Step(Without(edges, cycles), n, m) {
      StepsWithout(edges, more, n, m);
      StepsWithout(edges, cycles, n, m);
    }
  }

  // ---------------------------------------------------------------- orders

  /** Every edge of a node goes to itself or to an earlier node of the order. */
  ghost predicate Descends(edges: seq<Edge>, order: seq<Node>)
  {
    forall r, m | 0 <= r < |order| && Step(edges, order[r], m) :: m == order[r] || m in order[..r]
  }

  /** More cycles only take more edges away. */
  lemma DescendsStays(edges: seq<Edge>, before: seq<seq<Node>>, after: seq<seq<Node>>, order: seq<Node>)
    requires before <= after && Descends(Without(edges, before), order)
    ensures Descends(Without(edges, after), order)
  {
    hide Closes, Without;
    forall r, m | 0 <= r < |order| && Step(Without(edges, after), order[r], m)
      ensures m == order[r] || m in order[..r] {
      StepsWithout(edges, after, order[r], m);
      StepsWithout(edges, before, order[r], m);
      if Closes(before, order[r], m) {
        ClosesGrows(before, after, order[r], m);
      }
    }
  }

  /** A node all of whose edges go to itself, to earlier nodes, or close a cycle, may come next in the order. */
  lemma DescendsOn(edges: seq<Edge>, cycles: seq<seq<Node>>, order: seq<Node>, n: Node)
    requires Descends(Without(edges, cycles), order)
    requires forall m | m in Targets(edges, n) :: m == n || m in order || Closes(cycles, n, m)
    ensures Descends(Without(edges, cycles), order + [n])
  {
    hide Without, Closes;
    var rest, longer := Without(edges, cycles), order + [n];
    forall r, m | 0 <= r < |longer| && Step(rest, longer[r], m) ensures m == longer[r] || m in longer[..r] {
      if r < |order| {
        assert longer[..r] == order[..r];
      } else {
        StepsWithout(edges, cycles, n, m);
        TargetsAreEdges(edges, n, m);
        assert longer[..r] == order;
      }
    }
  }

  lemma {:induction false} WalkDescends(edges: seq<Edge>, order: seq<Node>, c: seq<Node>, r: nat) returns (s: nat)
    requires Descends(edges, order) && Walk(edges, c) && c != []
    requires r < |order| && order[r] == c[0]
    ensures s <= r && order[s] == c[|c| - 1]
    ensures s == r ==> forall i | 0 <= i < |c| :: c[i] == c[0]
    decreases |c|
  {
    if |c| == 1 {
      s := r;
    } else {
      assert Step(edges, c[0], c[1]);
      var t := r;
      if c[1] != c[0] {
        t :| 0 <= t < r && order[t] == c[1];
      }
      var rest := c[1..];
      forall i | 0 <= i < |rest| - 1 ensures Step(edges, rest[i], rest[i + 1]) {
        assert Step(edges, c[i + 1], c[i + 2]);
      }
      s := WalkDescends(edges, order, rest, t);
      if s == r {
        forall i | 0 <= i < |c| ensures c[i] == c[0] {
          if i > 0 { assert c[i] == rest[i - 1]; }
        }
      }
    }
  }

  /** A descending order admits no closed walk through two files. */
  lemma NoCycleDescending(edges: seq<Edge>, order: seq<Node>, c: seq<Node>)
    requires Descends(edges, order) && Distinct(order) && ClosedWalk(edges, c) && c[0] in order
    ensures !Cyclic(edges, c)
  {
    var r :| 0 <= r < |order| && order[r] == c[0];
    var round := c + [c[0]];
    forall i | 0 <= i < |round| - 1 ensures Step(edges, round[i], round[i + 1]) {
      if i < |c| - 1 { assert Step(edges, c[i], c[i + 1]); }
    }
    var s := WalkDescends(edges, order, round, r);
    assert s == r;
    forall i | 0 <= i < |c| ensures c[i] == c[0] {
      assert round[i] == c[i];
    }
  }

  /** When every node with includes is in a descending order, nothing is cyclic. */
  lemma DescendingIsAcyclic(edges: seq<Edge>, order: seq<Node>, c: seq<Node>)
    requires Descends(edges, order) && Distinct(order)
    requires forall n, m :: Step(edges, n, m) ==> n in order
    ensures !Cyclic(edges, c)
  {
    if ClosedWalk(edges, c) {
      assert Step(edges, c[0], if |c| == 1 then c[0] else c[1]);
      NoCycleDescending(edges, order, c);
    }
  }
}
