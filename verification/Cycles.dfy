/** Include-cycle detection as it runs: a depth-first search with colours and a path, proved to record what the search
    on the edges records, and the report of what it recorded. */
module Cycles {
  import opened Sequences
  import opened Strings
  import opened IncludeGraph
  import opened CycleSearch
  import opened CycleReports

  datatype Finding = Finding(check: string, severity: string, file: Node, detail: string)

  datatype Color = White | Gray | Black

  // ---------------------------------------------------------------- the search

  class Search {
    ghost const edges: seq<Edge>
    const adj: map<Node, seq<Node>>
    var color: map<Node, Color>
    var stack: seq<Node>
    var cycles: seq<seq<Node>>
    /** The finished nodes, in the order they were finished. */
    ghost var order: seq<Node>

    constructor (ghost es: seq<Edge>, a: map<Node, seq<Node>>)
      requires forall n :: (if n in a then a[n] else []) == Targets(es, n)
      ensures edges == es && adj == a && Valid() && Reached() == State([], [], [])
    {
      edges, adj := es, a;
      color, stack, cycles, order := map[], [], [], [];
    }

    function ColorOf(n: Node): Color
      reads `color
    {
      if n in color then color[n] else White
    }

    function Next(n: Node): seq<Node>
    {
      if n in adj then adj[n] else []
    }

    /** Where the search stands. */
    ghost function Reached(): State
      reads `stack, `cycles, `order
    {
      State(stack, order, cycles)
    }

    /** The path is gray and what is finished is black. */
    ghost predicate Valid()
      reads `color, `stack, `order
    {
      && (forall n :: Next(n) == Targets(edges, n))
      && (forall n :: ColorOf(n).Gray? <==> n in stack)
      && (forall n :: ColorOf(n).Black? <==> n in order)
      && Distinct(stack)
    }

    /** Records the part of the stack from `m` on. */
    method RecordCycle(m: Node)
      requires m in stack
      modifies `cycles
      ensures cycles == old(cycles) + [From(stack, m)]
    {
      for i := 0 to |stack|
        invariant m in stack[i..] && From(stack[i..], m) == From(stack, m)
        invariant cycles == old(cycles)
      {
        FromHere(stack, i, m);
        hide From;
        if stack[i] == m {
          cycles := cycles + [stack[i..]];
          return;
        }
      }
    }

    /** Colours a white node gray and pushes it. */
    method Enter(n: Node)
      requires Valid() && ColorOf(n).White?
      modifies `color, `stack
      ensures Valid() && stack == old(stack) + [n]
    {
      LongerIsDistinct(stack, n);
      color := color[n := Gray];
      stack := stack + [n];
    }

    /** Pops the top node and colours it black. */
    method Leave()
      requires Valid() && stack != []
      modifies `color, `stack, `order
      ensures Valid() && stack == old(stack)[..|old(stack)| - 1] && order == old(order) + [old(stack)[|old(stack)| - 1]]
    {
      ShorterIsDistinct(stack);
      hide Distinct;
      ghost var n := stack[|stack| - 1];
      color := color[stack[|stack| - 1] := Black];
      order := order + [n];
      stack := stack[..|stack| - 1];
      assert forall x :: x in order <==> x in old(order) || x == n;
      assert forall x | x != n :: ColorOf(x) == old(ColorOf(x)) && (x in stack <==> x in old(stack));
    }

    /** Visits a white node and everything white it reaches. */
    method Dfs(n: Node)
      requires Valid() && n in Nodes(edges) && !Visited(Reached(), n)
      modifies `color, `stack, `cycles, `order
      ensures Valid() && Reached() == Visit(edges, old(Reached()), n)
      decreases Unvisited(edges, Reached()), 0
    {
      TargetsAreNodes(edges, n);
      ghost var before := Reached();
      Enter(n);
      assert n in Unvisited(edges, before) && n !in Unvisited(edges, Reached());
      FollowAll(n);
      Leave();
      assert (before.stack + [n])[..|before.stack|] == before.stack;
    }

    /** Follows every edge out of the node on top. */
    method FollowAll(n: Node)
      requires Valid() && forall m | m in Targets(edges, n) :: m in Nodes(edges)
      modifies `color, `stack, `cycles, `order
      ensures Valid() && Reached() == Follow(edges, old(Reached()), Targets(edges, n))
      decreases Unvisited(edges, Reached()), 2
    {
      var next := Next(n);
      for i := 0 to |next|
        invariant Valid() && Unvisited(edges, Reached()) <= Unvisited(edges, old(Reached()))
        invariant Follow(edges, Reached(), next[i..]) == Follow(edges, old(Reached()), next)
      {
        hide Valid, FollowOne, Unvisited;
        assert next[i..][0] == next[i] && next[i..][1..] == next[i + 1..];
        FollowEdge(next[i]);
      }
      assert next[|next|..] == [];
    }

    /** Follows one edge out of the node on top. */
    method FollowEdge(m: Node)
      requires Valid() && m in Nodes(edges)
      modifies `color, `stack, `cycles, `order
      ensures Valid() && Reached() == FollowOne(edges, old(Reached()), m)
      decreases Unvisited(edges, Reached()), 1
    {
      hide Visit, From, Unvisited, Nodes, Distinct;
      match ColorOf(m)
      case Gray => RecordCycle(m);
      case White => Dfs(m);
      case Black =>
    }

    /** Searches from each of the given nodes that is still white. */
    method Run(nodes: seq<Node>)
      requires Valid() && Reached() == State([], [], []) && forall n | n in nodes :: n in Nodes(edges)
      modifies `color, `stack, `cycles, `order
      ensures Valid() && Reached() == CycleSearch.SearchAll(edges, nodes)
    {
      for i := 0 to |nodes|
        invariant Valid() && Reached() == CycleSearch.SearchAll(edges, nodes[..i])
      {
        hide Visit;
        assert nodes[..i + 1][..i] == nodes[..i] && nodes[..i + 1][i] == nodes[i];
        if ColorOf(nodes[i]).White? {
          Dfs(nodes[i]);
        }
      }
      assert nodes[..|nodes|] == nodes;
    }
  }

  lemma FromHere(path: seq<Node>, i: nat, m: Node)
    requires i < |path| && m in path[i..]
    ensures path[i] == m ==> From(path[i..], m) == path[i..]
    ensures path[i] != m ==> m in path[i + 1..] && From(path[i..], m) == From(path[i + 1..], m)
  {
    assert path[i..][1..] == path[i + 1..] && path[i..] == [path[i]] + path[i + 1..];
  }

  // ---------------------------------------------------------------- the check

  method Adjacency(edges: seq<Edge>) returns (adj: map<Node, seq<Node>>)
    ensures forall n :: (if n in adj then adj[n] else []) == Targets(edges, n)
    ensures forall n :: n in adj <==> Targets(edges, n) != []
  {
    adj := map[];
    for i := 0 to |edges|
      invariant forall n :: (if n in adj then adj[n] else []) == Targets(edges[..i], n)
      invariant forall n :: n in adj <==> Targets(edges[..i], n) != []
    {
      var e := edges[i];
      assert edges[..i + 1][..i] == edges[..i];
      adj := adj[e.src := (if e.src in adj then adj[e.src] else []) + [e.dst]];
    }
    assert edges[..|edges|] == edges;
  }

  /** The keys of the adjacency map, sorted, are the sources of the edges. */
  lemma KeysAreSources(edges: seq<Edge>, nodes: seq<Node>)
    requires Ascending(nodes) && forall n :: n in nodes <==> Targets(edges, n) != []
    ensures nodes == Sources(edges)
  {
    forall n ensures n in nodes <==> n in Sources(edges) {
      if n in nodes {
        TargetsAreEdges(edges, n, Targets(edges, n)[0]);
      } else if n in Sources(edges) {
        var m :| Edge(n, m) in edges;
        TargetsAreEdges(edges, n, m);
      }
    }
    AscendingIsUnique(nodes, Sources(edges));
  }

  /** Searches from every node that has includes. */
  method SearchAll(edges: seq<Edge>) returns (cycles: seq<seq<Node>>)
    ensures cycles == Recorded(edges)
  {
    var adj := Adjacency(edges);
    var nodes := SortedKeys(adj.Keys);
    KeysAreSources(edges, nodes);
    SourcesAreNodes(edges);
    var search := new Search(edges, adj);
    search.Run(nodes);
    cycles := search.cycles;
  }

  /** The report of one cycle: its first file and the walk back to it. */
  function Report(c: seq<Node>): Finding
    requires c != []
  {
    Finding("cyclic_include", "error", c[0], "include cycle: " + Join(c + [c[0]], " -> "))
  }

  /** The findings report these cycles, one each. */
  ghost predicate Reports(findings: seq<Finding>, cycles: seq<seq<Node>>)
  {
    |findings| == |cycles| && forall i | 0 <= i < |cycles| :: cycles[i] != [] && findings[i] == Report(cycles[i])
  }

  /** The doctor's cycle check. Every finding reports a simple cycle of at least two files, and there is a finding
      exactly when the includes are cyclic; the reported cycles are those recorded, the first of each key, and without
      the includes that close them nothing is cyclic, exactly when keys tell the recorded cycles apart. */
  method CheckCycles(edges: seq<Edge>) returns (findings: seq<Finding>)
    ensures Reports(findings, Reported(Recorded(edges)))
    ensures forall c | c in Reported(Recorded(edges)) :: SimpleCycle(edges, c)
    ensures findings != [] <==> exists c :: Cyclic(edges, c)
    ensures (forall c :: !Cyclic(Without(edges, Reported(Recorded(edges))), c)) <==> KeysTellApart(Recorded(edges))
    ensures PlainNames(edges) ==> KeysTellApart(Recorded(edges))
  {
    var cycles := SearchAll(edges);
    RecordedCycles(edges);
    ReportedIffCyclic(edges);
    ReportsCutExactly(edges);
    if PlainNames(edges) {
      PlainKeysTellApart(edges);
    }
    forall c | c in Reported(cycles) ensures SimpleCycle(edges, c) {
      ReportedAre(cycles, c);
    }
    hide Recorded, Reported, Without, Cyclic, KeysTellApart, PlainNames;
    findings := ReportAll(cycles);
  }

  /** Reports each cycle of two or more files once, by its key. */
  method ReportAll(cycles: seq<seq<Node>>) returns (findings: seq<Finding>)
    ensures Reports(findings, Reported(cycles))
  {
    findings := [];
    var seen: set<string> := {};
    for i := 0 to |cycles|
      invariant Reports(findings, Reported(cycles[..i]))
      invariant forall key :: key in seen <==> HasKey(Reported(cycles[..i]), key)
    {
      hide Key, HasKey;
      var c, before := cycles[i], Reported(cycles[..i]);
      assert cycles[..i + 1][..i] == cycles[..i] && cycles[..i + 1][i] == c;
      if |c| < 2 {
        continue;
      }
      var key := Key(c);
      if key in seen {
        continue;
      }
      seen := seen + {key};
      findings := findings + [Report(c)];
      KeysGrow(before, c);
    }
    assert cycles[..|cycles|] == cycles;
  }

  lemma KeysGrow(before: seq<seq<Node>>, c: seq<Node>)
    ensures forall key :: HasKey(before + [c], key) <==> HasKey(before, key) || key == Key(c)
  {
    hide Key;
    var after := before + [c];
    assert after[|before|] == c && forall d | d in before :: d in after;
  }
}
