/** Depth-first search along the includes, as a function of the edges: what it records, and what it keeps. */
module CycleSearch {
  import opened Sequences
  import opened Strings
  import opened IncludeGraph

  /** The path being searched, the files finished, in that order, and the cycles recorded. */
  datatype State = State(stack: seq<Node>, order: seq<Node>, cycles: seq<seq<Node>>)

  function Nodes(edges: seq<Edge>): set<Node>
  {
    (set e | e in edges :: e.src) + (set e | e in edges :: e.dst)
  }

  predicate Visited(s: State, n: Node)
  {
    n in s.stack || n in s.order
  }

  function Unvisited(edges: seq<Edge>, s: State): set<Node>
  {
    set n | n in Nodes(edges) && !Visited(s, n)
  }

  /** The path from `m` on. */
  function From(stack: seq<Node>, m: Node): (c: seq<Node>)
    requires m in stack
    ensures c != [] && c[0] == m && c[|c| - 1] == stack[|stack| - 1] && |c| <= |stack| && c == stack[|stack| - |c|..]
  {
    if stack[0] == m then stack else From(stack[1..], m)
  }

  lemma TargetsAreNodes(edges: seq<Edge>, n: Node)
    ensures forall m | m in Targets(edges, n) :: m in Nodes(edges) && Step(edges, n, m)
  {
    forall m | m in Targets(edges, n) ensures m in Nodes(edges) && Step(edges, n, m) {
      TargetsAreEdges(edges, n, m);
      assert Edge(n, m) in edges;
    }
  }

  /** Searches a new file and everything new it reaches. */
  function Visit(edges: seq<Edge>, s: State, n: Node): (r: State)
    requires n in Nodes(edges) && !Visited(s, n)
    ensures r.stack == s.stack && n in r.order && Unvisited(edges, r) < Unvisited(edges, s)
    decreases Unvisited(edges, s), 0, 0
  {
    TargetsAreNodes(edges, n);
    var entered := s.(stack := s.stack + [n]);
    assert n in Unvisited(edges, s) && n !in Unvisited(edges, entered);
    var followed := Follow(edges, entered, Targets(edges, n));
    followed.(stack := s.stack, order := followed.order + [n])
  }

  /** Follows the includes of the file on top, one after the other: one on the path closes a cycle, a new one is
      searched. */
  function Follow(edges: seq<Edge>, s: State, targets: seq<Node>): (r: State)
    requires forall m | m in targets :: m in Nodes(edges)
    ensures r.stack == s.stack && Unvisited(edges, r) <= Unvisited(edges, s)
    decreases Unvisited(edges, s), 2, |targets|
  {
    if targets == [] then s else Follow(edges, FollowOne(edges, s, targets[0]), targets[1..])
  }

  function FollowOne(edges: seq<Edge>, s: State, m: Node): (r: State)
    requires m in Nodes(edges)
    ensures r.stack == s.stack && Unvisited(edges, r) <= Unvisited(edges, s)
    decreases Unvisited(edges, s), 1, 0
  {
    if m in s.stack then s.(cycles := s.cycles + [From(s.stack, m)])
    else if m in s.order then s
    else Visit(edges, s, m)
  }

  /** Searches from each of the given files that is still new. */
  function SearchAll(edges: seq<Edge>, nodes: seq<Node>): (r: State)
    requires forall n | n in nodes :: n in Nodes(edges)
    ensures r.stack == []
  {
    if nodes == [] then State([], [], [])
    else
      var before, n := SearchAll(edges, nodes[..|nodes| - 1]), nodes[|nodes| - 1];
      if Visited(before, n) then before else Visit(edges, before, n)
  }

  // ---------------------------------------------------------------- what the search keeps

  /** `y` finishes after `x`: below it on the path, on the path when `x` has finished, or later in the order. */
  ghost predicate Later(s: State, x: Node, y: Node)
  {
    (exists i, j :: 0 <= i < j < |s.stack| && s.stack[i] == y && s.stack[j] == x) ||
    (x in s.order && y in s.stack) ||
    (exists i, j :: 0 <= i < j < |s.order| && s.order[i] == x && s.order[j] == y)
  }

  ghost predicate Apart(s: State)
  {
    Distinct(s.stack) && Distinct(s.order) && forall n | n in s.stack :: n !in s.order
  }

  lemma LaterIsStrict(s: State, x: Node, y: Node)
    requires Apart(s) && Later(s, x, y)
    ensures !Later(s, y, x)
  {}

  /** The cycle is a part of the path down to the file it ends with, as long as that is on the path. */
  ghost predicate EndsPath(s: State, c: seq<Node>)
  {
    c != [] && Visited(s, c[|c| - 1]) &&
    forall k | 0 <= k < |s.stack| && s.stack[k] == c[|c| - 1] :: |c| <= k + 1 && c == s.stack[k + 1 - |c|..k + 1]
  }

  /** A recorded cycle: closed, without repetition, each file finishing before the one it was reached from. */
  ghost predicate GoodCycle(edges: seq<Edge>, s: State, c: seq<Node>)
  {
    ClosedWalk(edges, c) && Distinct(c) && EndsPath(s, c) &&
    forall i, j | 0 <= i < j < |c| :: Later(s, c[j], c[i])
  }

  /** No two recorded cycles are closed by one edge. */
  ghost predicate ClosedOnce(cycles: seq<seq<Node>>)
  {
    forall c, d | c in cycles && d in cycles && c != [] && d != [] && c[0] == d[0] && c[|c| - 1] == d[|d| - 1] :: c == d
  }

  ghost predicate Good(edges: seq<Edge>, s: State)
  {
    Apart(s) && Walk(edges, s.stack) && (forall c | c in s.cycles :: GoodCycle(edges, s, c)) && ClosedOnce(s.cycles) &&
    Descends(Without(edges, s.cycles), s.order)
  }

  ghost predicate Grown(s: State, r: State)
  {
    s.order <= r.order && s.cycles <= r.cycles
  }

  // ---------------------------------------------------------------- entering a file

  lemma EnterKeepsCycle(edges: seq<Edge>, s: State, n: Node, c: seq<Node>)
    requires !Visited(s, n) && GoodCycle(edges, s, c)
    ensures GoodCycle(edges, s.(stack := s.stack + [n]), c)
  {
    var r := s.(stack := s.stack + [n]);
    forall i, j | 0 <= i < j < |c| ensures Later(r, c[j], c[i]) {
      EnterKeepsLater(s, n, c[j], c[i]);
    }
    forall k | 0 <= k < |r.stack| && r.stack[k] == c[|c| - 1] ensures |c| <= k + 1 && c == r.stack[k + 1 - |c|..k + 1] {
      assert k < |s.stack|;
      assert r.stack[k + 1 - |c|..k + 1] == s.stack[k + 1 - |c|..k + 1];
    }
  }

  lemma EnterKeepsLater(s: State, n: Node, x: Node, y: Node)
    requires Later(s, x, y)
    ensures Later(s.(stack := s.stack + [n]), x, y)
  {
    var longer := s.stack + [n];
    assert forall i | 0 <= i < |s.stack| :: longer[i] == s.stack[i];
    if i, j :| 0 <= i < j < |s.stack| && s.stack[i] == y && s.stack[j] == x {
      assert longer[i] == y && longer[j] == x;
    }
  }

  lemma EnterIsGood(edges: seq<Edge>, s: State, n: Node)
    requires Good(edges, s) && !Visited(s, n) && (s.stack != [] ==> Step(edges, s.stack[|s.stack| - 1], n))
    ensures Good(edges, s.(stack := s.stack + [n]))
  {
    hide GoodCycle, ClosedOnce, Descends, Without;
    forall c | c in s.cycles ensures GoodCycle(edges, s.(stack := s.stack + [n]), c) {
      EnterKeepsCycle(edges, s, n, c);
    }
  }

  // ---------------------------------------------------------------- leaving a file

  ghost function Left(s: State): State
    requires s.stack != []
  {
    s.(stack := s.stack[..|s.stack| - 1], order := s.order + [s.stack[|s.stack| - 1]])
  }

  lemma LeaveKeepsLater(s: State, x: Node, y: Node)
    requires s.stack != [] && Apart(s) && Later(s, x, y)
    ensures Later(Left(s), x, y)
  {
    var r, top := Left(s), |s.stack| - 1;
    assert s.stack == r.stack + [s.stack[top]];
    if i, j :| 0 <= i < j < |s.stack| && s.stack[i] == y && s.stack[j] == x {
      assert r.stack[i] == y;
      if j < top {
        assert r.stack[j] == x;
      } else {
        assert r.order[|s.order|] == x;
      }
    } else if x in s.order && y in s.stack {
      var i :| 0 <= i < |s.order| && s.order[i] == x;
      assert r.order[i] == x;
      if y == s.stack[top] {
        assert r.order[|s.order|] == y;
      }
    } else {
      var i, j :| 0 <= i < j < |s.order| && s.order[i] == x && s.order[j] == y;
      assert r.order[i] == x && r.order[j] == y;
    }
  }

  lemma LeaveKeepsCycle(edges: seq<Edge>, s: State, c: seq<Node>)
    requires s.stack != [] && Apart(s) && GoodCycle(edges, s, c)
    ensures GoodCycle(edges, Left(s), c)
  {
    var r := Left(s);
    forall i, j | 0 <= i < j < |c| ensures Later(r, c[j], c[i]) {
      LeaveKeepsLater(s, c[j], c[i]);
    }
    assert s.stack == r.stack + [s.stack[|s.stack| - 1]];
    forall k | 0 <= k < |r.stack| && r.stack[k] == c[|c| - 1] ensures |c| <= k + 1 && c == r.stack[k + 1 - |c|..k + 1] {
      assert s.stack[k] == c[|c| - 1];
      assert r.stack[k + 1 - |c|..k + 1] == s.stack[k + 1 - |c|..k + 1];
    }
  }

  lemma ShorterIsDistinct(c: seq<Node>)
    requires Distinct(c) && c != []
    ensures Distinct(c[..|c| - 1]) && forall x :: x in c[..|c| - 1] <==> x in c && x != c[|c| - 1]
  {
    assert c == c[..|c| - 1] + [c[|c| - 1]];
  }

  lemma LongerIsDistinct(c: seq<Node>, n: Node)
    requires Distinct(c) && n !in c
    ensures Distinct(c + [n]) && forall x :: x in c + [n] <==> x in c || x == n
  {}

  lemma LeaveIsApart(edges: seq<Edge>, s: State)
    requires s.stack != [] && Apart(s) && Walk(edges, s.stack)
    ensures Apart(Left(s)) && Walk(edges, Left(s).stack)
  {
    var r := Left(s);
    ShorterIsDistinct(s.stack);
    LongerIsDistinct(s.order, s.stack[|s.stack| - 1]);
    forall i | 0 <= i < |r.stack| - 1 ensures Step(edges, r.stack[i], r.stack[i + 1]) {
      assert Step(edges, s.stack[i], s.stack[i + 1]);
    }
  }

  lemma LeaveIsGood(edges: seq<Edge>, s: State)
    requires Good(edges, s) && s.stack != []
    requires var n := s.stack[|s.stack| - 1];
      forall m | m in Targets(edges, n) :: m == n || m in s.order || Closes(s.cycles, n, m)
    ensures Good(edges, Left(s))
  {
    hide GoodCycle, ClosedOnce, Closes, Descends, Without, Apart, Walk;
    LeaveIsApart(edges, s);
    DescendsOn(edges, s.cycles, s.order, s.stack[|s.stack| - 1]);
    forall c | c in s.cycles ensures GoodCycle(edges, Left(s), c) {
      LeaveKeepsCycle(edges, s, c);
    }
  }

  // ---------------------------------------------------------------- recording a cycle

  ghost function Recording(s: State, m: Node): State
    requires m in s.stack
  {
    s.(cycles := s.cycles + [From(s.stack, m)])
  }

  lemma PathCloses(edges: seq<Edge>, s: State, m: Node)
    requires Apart(s) && Walk(edges, s.stack) && m in s.stack && Step(edges, s.stack[|s.stack| - 1], m)
    ensures GoodCycle(edges, s, From(s.stack, m))
  {
    PathFrom(edges, s, |s.stack| - |From(s.stack, m)|);
  }

  lemma PathFrom(edges: seq<Edge>, s: State, b: nat)
    requires Apart(s) && Walk(edges, s.stack) && b < |s.stack| && Step(edges, s.stack[|s.stack| - 1], s.stack[b])
    ensures GoodCycle(edges, s, s.stack[b..])
  {
    hide Walk, Later, EndsPath;
    PathIsWalk(edges, s.stack, b);
    PathIsLater(s, b);
    PathEndsPath(s, b);
    assert s.stack[b..][0] == s.stack[b];
  }

  lemma PathIsWalk(edges: seq<Edge>, path: seq<Node>, b: nat)
    requires Walk(edges, path) && Distinct(path) && b < |path|
    ensures Walk(edges, path[b..]) && Distinct(path[b..])
  {
    var c := path[b..];
    forall i | 0 <= i < |c| - 1 ensures Step(edges, c[i], c[i + 1]) {
      assert Step(edges, path[b + i], path[b + i + 1]);
    }
  }

  lemma PathIsLater(s: State, b: nat)
    requires b < |s.stack|
    ensures var c := s.stack[b..]; forall i, j | 0 <= i < j < |c| :: Later(s, c[j], c[i])
  {
    var c := s.stack[b..];
    forall i, j | 0 <= i < j < |c| ensures Later(s, c[j], c[i]) {
      assert s.stack[b + i] == c[i] && s.stack[b + j] == c[j];
    }
  }

  lemma PathEndsPath(s: State, b: nat)
    requires Distinct(s.stack) && b < |s.stack|
    ensures EndsPath(s, s.stack[b..])
  {
    var c, top := s.stack[b..], |s.stack| - 1;
    assert c[|c| - 1] == s.stack[top];
    assert s.stack[top + 1 - |c|..top + 1] == c;
  }

  /** A cycle that ends with the file on top and begins with `m` is the path from `m` on. */
  lemma SameClosing(edges: seq<Edge>, s: State, m: Node, c: seq<Node>)
    requires Apart(s) && m in s.stack && GoodCycle(edges, s, c)
    requires c[0] == m && c[|c| - 1] == s.stack[|s.stack| - 1]
    ensures c == From(s.stack, m)
  {
    var n := |s.stack|;
    hide ClosedWalk, Later, From;
    assert s.stack[n - 1] == c[|c| - 1];
    assert c == s.stack[n - |c|..n] == s.stack[n - |c|..];
    SuffixFrom(s.stack, m, n - |c|);
  }

  lemma SuffixFrom(path: seq<Node>, m: Node, b: nat)
    requires Distinct(path) && b < |path| && path[b] == m
    ensures From(path, m) == path[b..]
  {
    hide From;
    var d := From(path, m);
    assert d[0] == path[|path| - |d|];
  }

  lemma RecordKeepsOnce(edges: seq<Edge>, s: State, m: Node)
    requires Apart(s) && m in s.stack && ClosedOnce(s.cycles) && forall c | c in s.cycles :: GoodCycle(edges, s, c)
    ensures ClosedOnce(Recording(s, m).cycles)
  {
    hide Apart, GoodCycle, From;
    var cycles := Recording(s, m).cycles;
    assert forall c | c in cycles :: c in s.cycles || c == From(s.stack, m);
    forall c, d | c in cycles && d in cycles && c != [] && d != [] && c[0] == d[0] && c[|c| - 1] == d[|d| - 1]
      ensures c == d {
      if c in s.cycles && d !in s.cycles {
        SameClosing(edges, s, m, c);
      } else if d in s.cycles && c !in s.cycles {
        SameClosing(edges, s, m, d);
      }
    }
  }

  lemma RecordIsGood(edges: seq<Edge>, s: State, m: Node)
    requires Good(edges, s) && m in s.stack && Step(edges, s.stack[|s.stack| - 1], m)
    ensures Good(edges, Recording(s, m))
    ensures m == s.stack[|s.stack| - 1] || Closes(Recording(s, m).cycles, s.stack[|s.stack| - 1], m)
  {
    hide Descends, Without, Walk, ClosedOnce, GoodCycle, From;
    var r := Recording(s, m);
    var c := From(s.stack, m);
    PathCloses(edges, s, m);
    RecordKeepsOnce(edges, s, m);
    assert r.cycles[|s.cycles|] == c;
    assert |c| == 1 ==> m == s.stack[|s.stack| - 1];
    DescendsStays(edges, s.cycles, r.cycles, s.order);
    forall d | d in r.cycles ensures GoodCycle(edges, r, d) {
      OnlyCyclesDiffer(edges, s, r, d);
    }
  }

  lemma OnlyCyclesDiffer(edges: seq<Edge>, s: State, r: State, c: seq<Node>)
    requires s.stack == r.stack && s.order == r.order && GoodCycle(edges, s, c)
    ensures GoodCycle(edges, r, c)
  {
    forall i, j | 0 <= i < j < |c| ensures Later(r, c[j], c[i]) {
      assert Later(s, c[j], c[i]);
    }
  }

  // ---------------------------------------------------------------- the whole search

  lemma {:induction false} VisitIsGood(edges: seq<Edge>, s: State, n: Node)
    requires n in Nodes(edges) && !Visited(s, n) && Good(edges, s)
    requires s.stack != [] ==> Step(edges, s.stack[|s.stack| - 1], n)
    ensures Good(edges, Visit(edges, s, n)) && Grown(s, Visit(edges, s, n))
    decreases Unvisited(edges, s), 0, 0
  {
    hide Good, Closes;
    TargetsAreNodes(edges, n);
    var entered := s.(stack := s.stack + [n]);
    EnterIsGood(edges, s, n);
    assert n in Unvisited(edges, s) && n !in Unvisited(edges, entered);
    FollowIsGood(edges, entered, n, Targets(edges, n));
    var followed := Follow(edges, entered, Targets(edges, n));
    LeaveIsGood(edges, followed);
    assert (s.stack + [n])[..|s.stack|] == s.stack;
    assert Visit(edges, s, n) == Left(followed);
  }

  lemma {:induction false} FollowIsGood(edges: seq<Edge>, s: State, n: Node, targets: seq<Node>)
    requires Good(edges, s) && s.stack != [] && s.stack[|s.stack| - 1] == n
    requires forall m | m in targets :: m in Nodes(edges) && Step(edges, n, m)
    ensures var r := Follow(edges, s, targets);
      Good(edges, r) && Grown(s, r) && forall m | m in targets :: m == n || m in r.order || Closes(r.cycles, n, m)
    decreases Unvisited(edges, s), 2, |targets|
  {
    hide Good, Closes, FollowOne;
    if targets != [] {
      var one := FollowOne(edges, s, targets[0]);
      FollowOneIsGood(edges, s, n, targets[0]);
      FollowIsGood(edges, one, n, targets[1..]);
      var r := Follow(edges, s, targets);
      if Closes(one.cycles, n, targets[0]) {
        ClosesGrows(one.cycles, r.cycles, n, targets[0]);
      }
      assert forall m | m in targets :: m == targets[0] || m in targets[1..];
    }
  }

  lemma {:induction false} FollowOneIsGood(edges: seq<Edge>, s: State, n: Node, m: Node)
    requires Good(edges, s) && s.stack != [] && s.stack[|s.stack| - 1] == n && m in Nodes(edges) && Step(edges, n, m)
    ensures var r := FollowOne(edges, s, m);
      Good(edges, r) && Grown(s, r) && (m == n || m in r.order || Closes(r.cycles, n, m))
    decreases Unvisited(edges, s), 1, 0
  {
    hide Good, Closes, Visit, From;
    if m in s.stack {
      RecordIsGood(edges, s, m);
    } else if m !in s.order {
      VisitIsGood(edges, s, m);
    }
  }

  lemma NothingIsGood(edges: seq<Edge>)
    ensures Good(edges, State([], [], []))
  {}

  /** The search keeps all this, and finishes every file it is started from. */
  lemma {:induction false} SearchIsGood(edges: seq<Edge>, nodes: seq<Node>)
    requires forall n | n in nodes :: n in Nodes(edges)
    ensures var r := SearchAll(edges, nodes); Good(edges, r) && forall n | n in nodes :: n in r.order
  {
    hide Good;
    if nodes == [] {
      NothingIsGood(edges);
    } else {
      var front, n := nodes[..|nodes| - 1], nodes[|nodes| - 1];
      SearchIsGood(edges, front);
      var before := SearchAll(edges, front);
      if !Visited(before, n) {
        VisitIsGood(edges, before, n);
      }
      assert nodes == front + [n];
    }
  }

  // ---------------------------------------------------------------- the recorded cycles

  /** The files with includes, in ascending order. */
  function Sources(edges: seq<Edge>): (nodes: seq<Node>)
    ensures Ascending(nodes) && forall n :: n in nodes <==> exists m :: Edge(n, m) in edges
  {
    if edges == [] then []
    else
      var front, last := edges[..|edges| - 1], edges[|edges| - 1];
      var nodes := Sources(front);
      assert edges == front + [last];
      if last.src in nodes then nodes
      else
        var more := Insert(last.src, nodes);
        assert forall n :: n in more <==> n in multiset(more);
        assert forall n :: n in nodes <==> n in multiset(nodes);
        more
  }

  lemma SourcesAreNodes(edges: seq<Edge>)
    ensures forall n | n in Sources(edges) :: n in Nodes(edges)
  {
    forall n | n in Sources(edges) ensures n in Nodes(edges) {
      var m :| Edge(n, m) in edges;
      assert Edge(n, m).src == n;
    }
  }

  /** The cycles the search records. */
  function Recorded(edges: seq<Edge>): seq<seq<Node>>
  {
    SourcesAreNodes(edges);
    SearchAll(edges, Sources(edges)).cycles
  }

  /** Every recorded cycle is closed and without repetition; without the edges that close the recorded cycles nothing is
      cyclic; and its inner steps close no recorded cycle. */
  lemma RecordedCycles(edges: seq<Edge>)
    ensures forall c | c in Recorded(edges) :: ClosedWalk(edges, c) && Distinct(c)
    ensures ClosedOnce(Recorded(edges))
    ensures forall c, i | c in Recorded(edges) && 0 <= i < |c| - 1 :: !Closes(Recorded(edges), c[i], c[i + 1])
    ensures forall c :: !Cyclic(Without(edges, Recorded(edges)), c)
  {
    SourcesAreNodes(edges);
    SearchIsGood(edges, Sources(edges));
    var s, cycles := SearchAll(edges, Sources(edges)), Recorded(edges);
    forall c, i | c in cycles && 0 <= i < |c| - 1 ensures !Closes(cycles, c[i], c[i + 1]) {
      if Closes(cycles, c[i], c[i + 1]) {
        var d :| d in cycles && |d| >= 2 && d[|d| - 1] == c[i] && d[0] == c[i + 1];
        assert GoodCycle(edges, s, c) && GoodCycle(edges, s, d);
        LaterIsStrict(s, c[i + 1], c[i]);
      }
    }
    forall c ensures !Cyclic(Without(edges, cycles), c) {
      hide Closes, Without, ClosedOnce;
      forall n, m | Step(Without(edges, cycles), n, m) ensures n in s.order {
        StepsWithout(edges, cycles, n, m);
        assert n in Sources(edges);
      }
      DescendingIsAcyclic(Without(edges, cycles), s.order, c);
    }
  }
}
