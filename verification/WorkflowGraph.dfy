/** Cycle detection of the workflow validator (graph_dsl.py).

    The validator runs one depth-first search over a shared `visited` set, `rec_stack`
    and `path`; every cycle aborts the search, clears all three and resumes at the next
    node.  The loops are modelled by class CycleDetector and proved equal to the
    functions Visit, Scan and Sweep, about which the theorems are stated. */
module WorkflowGraph {
  import opened Common

  type Graph = map<string, seq<string>>

  /** A node of the workflow; a missing or empty id is "", a missing type is None. */
  datatype NodeDecl = NodeDecl(id: string, kind: Option<string>)
  datatype EdgeDecl = EdgeDecl(source: string, target: string)

  const INTENTIONAL_LOOP_NODE_TYPES: set<string> := {"for_each", "while", "retry", "loop", "do_while"}

  // ---------- Graphs, walks and cycles: the reference notions ----------

  predicate Edge(g: Graph, u: string, v: string) {
    u in g && v in g && v in g[u]
  }

  /** Every edge leads to a declared node; BuildGraph establishes it. */
  ghost predicate Closed(g: Graph) {
    forall u, i :: u in g && 0 <= i < |g[u]| ==> g[u][i] in g
  }

  ghost predicate IsWalk(g: Graph, w: seq<string>) {
    && w != []
    && (forall i :: 0 <= i < |w| ==> w[i] in g)
    && (forall i, j :: 0 <= i && j == i + 1 && j < |w| ==> Edge(g, w[i], w[j]))
  }

  ghost predicate IsCycle(g: Graph, c: seq<string>) {
    |c| >= 2 && IsWalk(g, c) && c[0] == c[|c| - 1]
  }

  ghost predicate IsSimpleCycle(g: Graph, c: seq<string>) {
    IsCycle(g, c) && Distinct(c[..|c| - 1])
  }

  /** Walk p leads from n to a node of cycle c. */
  ghost predicate LeadsTo(g: Graph, n: string, p: seq<string>, c: seq<string>) {
    IsWalk(g, p) && p[0] == n && IsCycle(g, c) && p[|p| - 1] == c[0]
  }

  ghost predicate CanReach(g: Graph, n: string, c: seq<string>) {
    exists p :: LeadsTo(g, n, p, c)
  }

  ghost predicate CanReachCycle(g: Graph, n: string) {
    exists c :: CanReach(g, n, c)
  }

  ghost predicate Acyclic(g: Graph) {
    forall c :: !IsCycle(g, c)
  }

  lemma CycleThroughSuccessor(g: Graph, node: string)
    requires node in g && CanReachCycle(g, node)
    ensures exists i :: 0 <= i < |g[node]| && CanReachCycle(g, g[node][i])
  {
    var c :| CanReach(g, node, c);
    var p :| LeadsTo(g, node, p, c);
    var q, d := p[1..], c;
    if |p| == 1 {
      q, d := [c[1]], c[1..] + [c[1]];
      assert Edge(g, c[0], c[1]);
      assert forall i, j :: 0 <= i && j == i + 1 && j < |d| ==> Edge(g, d[i], d[j]) by {
        forall i, j | 0 <= i && j == i + 1 && j < |d| ensures Edge(g, d[i], d[j]) {
          assert d[i] == c[i + 1];
          if j < |c| - 1 { assert d[j] == c[j + 1]; } else { assert d[j] == c[1] && c[i + 1] == c[0]; }
        }
      }
    } else {
      assert Edge(g, p[0], p[1]);
      assert forall i, j :: 0 <= i && j == i + 1 && j < |q| ==> Edge(g, q[i], q[j]) by {
        forall i, j | 0 <= i && j == i + 1 && j < |q| ensures Edge(g, q[i], q[j]) {
          assert q[i] == p[i + 1] && q[j] == p[j + 1];
        }
      }
    }
    var next := q[0];
    assert LeadsTo(g, next, q, d);
    assert CanReach(g, next, d);
    var i :| 0 <= i < |g[node]| && g[node][i] == next;
  }

  // ---------- The search as a function of its three shared collections ----------

  datatype Search = Search(visited: set<string>, recStack: set<string>, path: seq<string>)

  const FRESH := Search({}, {}, [])

  /** What one call of the nested dfs returns, with the collections it leaves behind. */
  datatype Outcome = Outcome(cycle: Option<seq<string>>, after: Search)

  predicate Consistent(g: Graph, s: Search) {
    && s.recStack <= s.visited <= g.Keys
    && (set x | x in s.path) == s.recStack
    && Distinct(s.path)
  }

  function Position(s: seq<string>, x: string): (i: nat)
    requires x in s
    ensures i < |s| && s[i] == x && x !in s[..i]
  {
    if s[0] == x then 0 else 1 + Position(s[1..], x)
  }

  function Enter(s: Search, node: string): Search {
    Search(s.visited + {node}, s.recStack + {node}, s.path + [node])
  }

  /** dfs(node): mark, push, scan the neighbours. */
  function Visit(g: Graph, s: Search, node: string): (o: Outcome)
    requires Closed(g) && Consistent(g, s) && node in g && node !in s.visited
    ensures node in o.after.visited && s.visited <= o.after.visited <= g.Keys
    ensures o.cycle.None? ==>
      Consistent(g, o.after) && o.after.path == s.path && o.after.recStack == s.recStack
    decreases g.Keys - s.visited, 0
  {
    assert node !in s.path;
    Scan(g, Enter(s, node), node, 0)
  }

  /** The loop over the neighbours of node from index i on, then the pop. */
  function Scan(g: Graph, s: Search, node: string, i: nat): (o: Outcome)
    requires Closed(g) && Consistent(g, s) && node in g && i <= |g[node]|
    requires s.path != [] && s.path[|s.path| - 1] == node
    ensures s.visited <= o.after.visited <= g.Keys
    ensures o.cycle.None? ==>
      && Consistent(g, o.after)
      && o.after.path == s.path[..|s.path| - 1] && o.after.recStack == s.recStack - {node}
    decreases g.Keys - s.visited, |g[node]| - i + 1
  {
    if i == |g[node]| then
      assert s.path == s.path[..|s.path| - 1] + [node];
      Outcome(None, Search(s.visited, s.recStack - {node}, s.path[..|s.path| - 1]))
    else
      var neighbor := g[node][i];
      if neighbor !in s.visited then
        var o := Visit(g, s, neighbor);
        if o.cycle.Some? then o else Scan(g, o.after, node, i + 1)
      else if neighbor in s.recStack then
        Outcome(Some(s.path[Position(s.path, neighbor)..] + [neighbor]), s)
      else
        Scan(g, s, node, i + 1)
  }

  /** A reported cycle, with the node the aborted search had started from. */
  datatype Report = Report(root: string, cycle: seq<string>)

  /** The loop over the nodes, in the order the dictionary yields them. */
  function Sweep(g: Graph, s: Search, order: seq<string>): seq<Report>
    requires Closed(g) && Consistent(g, s) && s.path == [] && forall n :: n in order ==> n in g
    decreases order
  {
    if order == [] then []
    else if order[0] in s.visited then Sweep(g, s, order[1..])
    else
      var o := Visit(g, s, order[0]);
      if o.cycle.Some? then [Report(order[0], o.cycle.value)] + Sweep(g, FRESH, order[1..])
      else Sweep(g, o.after, order[1..])
  }

  // ---------- What one search finds ----------

  /** Finished nodes (visited, no longer on the stack) reach no cycle; the path is a walk. */
  ghost predicate Searching(g: Graph, s: Search) {
    && Consistent(g, s)
    && (forall u :: u in s.visited - s.recStack ==> !CanReachCycle(g, u))
    && (s.path != [] ==> IsWalk(g, s.path))
  }

  /** The cycle closes path p: it is the part of p from some position on, plus its first node. */
  ghost predicate Closes(g: Graph, p: seq<string>, i: nat, c: seq<string>) {
    IsWalk(g, p) && Distinct(p) && i < |p| && Edge(g, p[|p| - 1], p[i]) && c == p[i..] + [p[i]]
  }

  ghost predicate Found(g: Graph, s: Search, o: Outcome) {
    && o.cycle.Some?
    && s.path <= o.after.path
    && exists i :: Closes(g, o.after.path, i, o.cycle.value)
  }

  lemma {:induction false} VisitCorrect(g: Graph, s: Search, node: string)
    requires Closed(g) && Searching(g, s) && node in g && node !in s.visited
    requires s.path != [] ==> Edge(g, s.path[|s.path| - 1], node)
    ensures var o := Visit(g, s, node);
      if o.cycle.None? then Searching(g, o.after) && !CanReachCycle(g, node)
      else Found(g, Enter(s, node), o)
    decreases g.Keys - s.visited, 0
  {
    EnterSearches(g, s, node);
    ScanCorrect(g, Enter(s, node), node, 0);
    hide CanReachCycle, IsWalk, Distinct, Scan, Consistent;
  }

  lemma EnterSearches(g: Graph, s: Search, node: string)
    requires Searching(g, s) && node in g && node !in s.visited
    requires s.path != [] ==> Edge(g, s.path[|s.path| - 1], node)
    ensures node !in s.path && Searching(g, Enter(s, node))
  {
    var t := Enter(s, node);
    assert node !in s.path;
    assert IsWalk(g, t.path) by {
      forall i, j | 0 <= i && j == i + 1 && j < |t.path| ensures Edge(g, t.path[i], t.path[j]) {
        if j < |s.path| { assert Edge(g, s.path[i], s.path[j]); }
      }
    }
    assert t.visited - t.recStack == s.visited - s.recStack;
  }

  lemma {:induction false} ScanCorrect(g: Graph, s: Search, node: string, i: nat)
    requires Closed(g) && Searching(g, s) && node in g && i <= |g[node]|
    requires s.path != [] && s.path[|s.path| - 1] == node
    requires forall k :: 0 <= k < i ==> !CanReachCycle(g, g[node][k])
    ensures var o := Scan(g, s, node, i);
      if o.cycle.None? then Searching(g, o.after) && !CanReachCycle(g, node)
      else Found(g, s, o)
    decreases g.Keys - s.visited, |g[node]| - i + 1
  {
    if i == |g[node]| {
      ScanEnds(g, s, node);
    } else {
      hide CanReachCycle, IsWalk, Distinct, Found;
      var neighbor := g[node][i];
      if neighbor !in s.visited {
        VisitCorrect(g, s, neighbor);
        var o := Visit(g, s, neighbor);
        if o.cycle.Some? { FoundFurther(g, s, neighbor, o); }
        if o.cycle.None? { ScanCorrect(g, o.after, node, i + 1); }
      } else if neighbor in s.recStack {
        BackEdgeIsFound(g, s, node, i);
      } else {
        ScanCorrect(g, s, node, i + 1);
      }
    }
  }

  lemma FoundFurther(g: Graph, s: Search, neighbor: string, o: Outcome)
    requires Found(g, Enter(s, neighbor), o)
    ensures Found(g, s, o)
  {
    hide Closes;
    assert s.path <= Enter(s, neighbor).path;
  }

  /** The next neighbour is on the path: the cycle it closes is returned. */
  lemma BackEdgeIsFound(g: Graph, s: Search, node: string, i: nat)
    requires Closed(g) && Searching(g, s) && node in g && i < |g[node]| && g[node][i] in s.recStack
    requires s.path != [] && s.path[|s.path| - 1] == node
    ensures Found(g, s, Scan(g, s, node, i))
  {
    var neighbor := g[node][i];
    assert neighbor in s.path && Edge(g, node, neighbor);
    assert Closes(g, s.path, Position(s.path, neighbor), Scan(g, s, node, i).cycle.value);
  }

  /** All neighbours are done: the pop finishes the node. */
  lemma ScanEnds(g: Graph, s: Search, node: string)
    requires Closed(g) && Searching(g, s) && node in g
    requires s.path != [] && s.path[|s.path| - 1] == node
    requires forall k :: 0 <= k < |g[node]| ==> !CanReachCycle(g, g[node][k])
    ensures var o := Scan(g, s, node, |g[node]|);
      o.cycle.None? && Searching(g, o.after) && !CanReachCycle(g, node)
  {
    if CanReachCycle(g, node) { CycleThroughSuccessor(g, node); }
    var o := Scan(g, s, node, |g[node]|);
    if o.after.path != [] { PrefixIsWalk(g, s.path, |s.path| - 1); }
    hide CanReachCycle, IsWalk, Distinct;
    assert forall u :: u in o.after.visited - o.after.recStack ==> u == node || u in s.visited - s.recStack;
  }

  lemma PrefixIsWalk(g: Graph, w: seq<string>, n: nat)
    requires IsWalk(g, w) && 0 < n <= |w|
    ensures IsWalk(g, w[..n])
  {
    forall i, j | 0 <= i && j == i + 1 && j < n ensures Edge(g, w[..n][i], w[..n][j]) {
      assert Edge(g, w[i], w[j]);
    }
  }

  lemma ClosedPathIsSimpleCycle(g: Graph, p: seq<string>, i: nat, c: seq<string>)
    requires Closes(g, p, i, c)
    ensures IsSimpleCycle(g, c) && LeadsTo(g, p[0], p[..i + 1], c)
  {
    forall a, b | 0 <= a && b == a + 1 && b < |c| ensures Edge(g, c[a], c[b]) {
      if b < |c| - 1 { assert Edge(g, p[i + a], p[i + b]); }
    }
    forall a | 0 <= a < |c| ensures c[a] in g { }
    PrefixIsWalk(g, p, i + 1);
    assert c[..|c| - 1] == p[i..];
  }

  // ---------- Which cycle one search finds ----------

  /** Position of the first entry from i on that can reach a cycle; the length if none does. */
  ghost function FirstFrom(g: Graph, ns: seq<string>, i: nat): (k: nat)
    requires i <= |ns|
    ensures i <= k <= |ns| && (k < |ns| ==> CanReachCycle(g, ns[k]))
    ensures forall j :: i <= j < k ==> !CanReachCycle(g, ns[j])
    decreases |ns| - i
  {
    if i == |ns| || CanReachCycle(g, ns[i]) then i else FirstFrom(g, ns, i + 1)
  }

  /** The first neighbour of n that can reach a cycle. */
  ghost function First(g: Graph, n: string): (f: string)
    requires Closed(g) && n in g && CanReachCycle(g, n)
    ensures f in g && CanReachCycle(g, f)
  {
    CycleThroughSuccessor(g, n);
    g[n][FirstFrom(g, g[n], 0)]
  }

  ghost predicate Chasing(g: Graph, path: seq<string>) {
    && path != [] && Distinct(path) && (forall x :: x in path ==> x in g)
    && CanReachCycle(g, path[|path| - 1])
  }

  /** Follow First from the end of a path until a node repeats; the loop closed there. */
  ghost function Chase(g: Graph, path: seq<string>): seq<string>
    requires Closed(g) && Chasing(g, path)
    decreases g.Keys - set x | x in path
  {
    var next := First(g, path[|path| - 1]);
    if next in path then path[Position(path, next)..] + [next]
    else
      assert next in g.Keys - set x | x in path;
      Chase(g, path + [next])
  }

  /** The loop that following First from n runs into. */
  ghost function Loop(g: Graph, n: string): seq<string>
    requires Closed(g) && n in g && CanReachCycle(g, n)
  {
    Chase(g, [n])
  }

  lemma BackToCycle(g: Graph, p: seq<string>, m: nat, i: nat)
    requires IsWalk(g, p) && m < |p| && i < |p| && Edge(g, p[|p| - 1], p[i])
    ensures IsWalk(g, p[m..] + [p[i]])
  {
    var w := p[m..] + [p[i]];
    forall a, b | 0 <= a && b == a + 1 && b < |w| ensures Edge(g, w[a], w[b]) {
      if b < |w| - 1 { assert Edge(g, p[m + a], p[m + b]); }
    }
  }

  /** The node at the end of the path reaches the cycle a search finds from there. */
  lemma FoundReaches(g: Graph, s: Search, o: Outcome)
    requires s.path != [] && Found(g, s, o)
    ensures CanReachCycle(g, s.path[|s.path| - 1])
  {
    var p, m, c := o.after.path, |s.path| - 1, o.cycle.value;
    var i: nat :| Closes(g, p, i, c);
    ClosedPathIsSimpleCycle(g, p, i, c);
    BackToCycle(g, p, m, i);
    var w := p[m..] + [p[i]];
    hide IsWalk, Edge;
    assert p[m] == s.path[m];
    assert LeadsTo(g, s.path[m], w, c);
    assert CanReach(g, s.path[m], c);
  }

  /** The cycle a search returns is where following First from the end of its path leads. */
  lemma {:induction false} VisitChases(g: Graph, s: Search, node: string)
    requires Closed(g) && Searching(g, s) && node in g && node !in s.visited
    requires s.path != [] ==> Edge(g, s.path[|s.path| - 1], node)
    ensures Visit(g, s, node).cycle.Some? ==>
      Chasing(g, s.path + [node]) && Visit(g, s, node).cycle.value == Chase(g, s.path + [node])
    decreases g.Keys - s.visited, 0
  {
    EnterSearches(g, s, node);
    ScanChases(g, Enter(s, node), node, 0);
  }

  lemma {:induction false} ScanChases(g: Graph, s: Search, node: string, i: nat)
    requires Closed(g) && Searching(g, s) && node in g && i <= |g[node]|
    requires s.path != [] && s.path[|s.path| - 1] == node
    requires forall k :: 0 <= k < i ==> !CanReachCycle(g, g[node][k])
    ensures Scan(g, s, node, i).cycle.Some? ==>
      Chasing(g, s.path) && Scan(g, s, node, i).cycle.value == Chase(g, s.path)
    decreases g.Keys - s.visited, |g[node]| - i + 1
  {
    if i == |g[node]| {
    } else {
      hide CanReachCycle, IsWalk, Distinct, Found, Chasing, Chase, Closes;
      ScanCorrect(g, s, node, i);
      var o := Scan(g, s, node, i);
      if o.cycle.Some? { FoundChases(g, s, o); }
      var neighbor := g[node][i];
      if neighbor !in s.visited {
        VisitCorrect(g, s, neighbor);
        VisitChases(g, s, neighbor);
        var v := Visit(g, s, neighbor);
        if v.cycle.None? {
          ScanChases(g, v.after, node, i + 1);
        } else {
          ChaseStep(g, s.path, neighbor, i);
        }
      } else if neighbor in s.recStack {
        assert neighbor in s.path;
        BackEdgeReaches(g, s, neighbor);
        ChaseStep(g, s.path, neighbor, i);
      } else {
        ScanChases(g, s, node, i + 1);
      }
    }
  }

  lemma BackEdgeReaches(g: Graph, s: Search, neighbor: string)
    requires Searching(g, s) && neighbor in s.path && Edge(g, s.path[|s.path| - 1], neighbor)
    ensures CanReachCycle(g, neighbor)
  {
    var i := Position(s.path, neighbor);
    var c := s.path[i..] + [neighbor];
    assert Closes(g, s.path, i, c);
    ClosedPathIsSimpleCycle(g, s.path, i, c);
    CycleNodeReachesIt(g, c);
  }

  lemma FoundChases(g: Graph, s: Search, o: Outcome)
    requires Searching(g, s) && s.path != [] && Found(g, s, o)
    ensures Chasing(g, s.path)
  {
    FoundReaches(g, s, o);
  }

  /** One step of the chase, by the neighbour before which none can reach a cycle. */
  lemma ChaseStep(g: Graph, path: seq<string>, next: string, i: nat)
    requires Closed(g) && Chasing(g, path)
    requires var ns := g[path[|path| - 1]];
      && i < |ns| && ns[i] == next && CanReachCycle(g, next)
      && forall k :: 0 <= k < i ==> !CanReachCycle(g, ns[k])
    ensures if next in path then Chase(g, path) == path[Position(path, next)..] + [next]
            else Chasing(g, path + [next]) && Chase(g, path) == Chase(g, path + [next])
  {
    var ns := g[path[|path| - 1]];
    assert FirstFrom(g, ns, 0) == i;
    assert First(g, path[|path| - 1]) == next;
  }

  // ---------- What the sweep over all nodes reports ----------

  ghost function CycleReachers(g: Graph, order: seq<string>): seq<string> {
    if order == [] then []
    else (if CanReachCycle(g, order[0]) then [order[0]] else []) + CycleReachers(g, order[1..])
  }

  function Roots(reports: seq<Report>): seq<string> {
    seq(|reports|, i requires 0 <= i < |reports| => reports[i].root)
  }

  ghost predicate SoundReport(g: Graph, r: Report) {
    IsSimpleCycle(g, r.cycle) && CanReach(g, r.root, r.cycle)
  }

  /** The report of a node that can reach a cycle: the loop that following First runs into. */
  ghost predicate IsReport(g: Graph, r: Report)
    requires Closed(g)
  {
    r.root in g && CanReachCycle(g, r.root) && r.cycle == Loop(g, r.root)
  }

  /** A search begun with an empty path finds a cycle exactly if its root reaches one, and then
      the loop of First from the root, whatever was searched before. */
  lemma VisitFromRoot(g: Graph, s: Search, root: string)
    requires Closed(g) && Searching(g, s) && s.path == [] && root in g && root !in s.visited
    ensures var o := Visit(g, s, root);
      && (o.cycle.Some? <==> CanReachCycle(g, root))
      && (o.cycle.Some? ==> SoundReport(g, Report(root, o.cycle.value)) && IsReport(g, Report(root, o.cycle.value)))
      && (o.cycle.None? ==> Searching(g, o.after) && o.after.path == [])
  {
    VisitCorrect(g, s, root);
    VisitChases(g, s, root);
    assert [] + [root] == [root];
    var o := Visit(g, s, root);
    hide Visit, Chase;
    if o.cycle.Some? {
      var p := o.after.path;
      var i :| Closes(g, p, i, o.cycle.value);
      assert p[0] == Enter(s, root).path[0] == root;
      ClosedPathIsSimpleCycle(g, p, i, o.cycle.value);
      assert CanReach(g, root, o.cycle.value);
    }
  }

  ghost predicate AllSound(g: Graph, rs: seq<Report>) {
    forall i :: 0 <= i < |rs| ==> SoundReport(g, rs[i])
  }

  ghost predicate AllLoops(g: Graph, rs: seq<Report>)
    requires Closed(g)
  {
    forall i :: 0 <= i < |rs| ==> IsReport(g, rs[i])
  }

  /** One report for each node that can reach a cycle: a simple cycle of real edges, the loop of
      First from that node. */
  lemma {:induction false} SweepExact(g: Graph, s: Search, order: seq<string>)
    requires Closed(g) && Searching(g, s) && s.path == [] && forall n :: n in order ==> n in g
    ensures Roots(Sweep(g, s, order)) == CycleReachers(g, order)
    ensures AllSound(g, Sweep(g, s, order)) && AllLoops(g, Sweep(g, s, order))
    decreases order
  {
    if order == [] {
    } else {
      hide Visit, Scan, CanReachCycle, IsReport, SoundReport, IsWalk, Loop;
      var root, rest := order[0], order[1..];
      if root in s.visited {
        assert s.recStack == {};
        SweepExact(g, s, rest);
      } else {
        VisitFromRoot(g, s, root);
        var o := Visit(g, s, root);
        if o.cycle.Some? {
          SweepExact(g, FRESH, rest);
          Prepend(g, Report(root, o.cycle.value), Sweep(g, FRESH, rest));
        } else {
          SweepExact(g, o.after, rest);
        }
      }
    }
  }

  lemma Prepend(g: Graph, r: Report, rs: seq<Report>)
    requires Closed(g) && SoundReport(g, r) && IsReport(g, r) && AllSound(g, rs) && AllLoops(g, rs)
    ensures AllSound(g, [r] + rs) && AllLoops(g, [r] + rs) && Roots([r] + rs) == [r.root] + Roots(rs)
  {
    hide SoundReport, IsReport;
  }

  /** The reports are those of the graph alone: the order of the nodes only arranges them. */
  lemma ReportsExact(g: Graph, order: seq<string>)
    requires Closed(g) && Enumerates(order, g)
    ensures forall r :: r in Sweep(g, FRESH, order) <==> IsReport(g, r)
  {
    SweepExact(g, FRESH, order);
    CycleReachersExact(g, order);
    var rs := Sweep(g, FRESH, order);
    hide Sweep, CanReachCycle, Loop;
    forall r | IsReport(g, r) ensures r in rs {
      assert r.root in Roots(rs);
      var i :| 0 <= i < |rs| && Roots(rs)[i] == r.root;
      assert IsReport(g, rs[i]);
      assert rs[i] == r;
    }
  }

  // ---------- Intentional and accidental cycles ----------

  datatype LoopInfo = LoopInfo(path: seq<string>, controlNode: string)

  predicate IsControl(kinds: map<string, string>, controls: set<string>, n: string) {
    n in kinds && kinds[n] in controls
  }

  /** The control nodes of a cycle, its closing repetition left out. */
  function ControlNodes(kinds: map<string, string>, controls: set<string>, ns: seq<string>): seq<string> {
    if ns == [] then []
    else (if IsControl(kinds, controls, ns[0]) then [ns[0]] else []) + ControlNodes(kinds, controls, ns[1..])
  }

  lemma {:induction false} ControlNodesExact(kinds: map<string, string>, controls: set<string>, ns: seq<string>)
    ensures forall n :: n in ControlNodes(kinds, controls, ns) <==> n in ns && IsControl(kinds, controls, n)
  {
    if ns == [] {
    } else {
      ControlNodesExact(kinds, controls, ns[1..]);
    }
  }

  predicate Controlled(kinds: map<string, string>, controls: set<string>, cycle: seq<string>) {
    exists i :: 0 <= i < |cycle| - 1 && IsControl(kinds, controls, cycle[i])
  }

  /** Where one reported cycle is filed: with its first control node, or as accidental. */
  function AsLoop(kinds: map<string, string>, controls: set<string>, c: seq<string>): seq<LoopInfo>
    requires c != []
  {
    var inside := ControlNodes(kinds, controls, c[..|c| - 1]);
    if inside != [] then [LoopInfo(c, inside[0])] else []
  }

  function AsAccident(kinds: map<string, string>, controls: set<string>, c: seq<string>): seq<seq<string>>
    requires c != []
  {
    if ControlNodes(kinds, controls, c[..|c| - 1]) != [] then [] else [c]
  }

  function Intentional(kinds: map<string, string>, controls: set<string>, rs: seq<Report>): seq<LoopInfo>
    requires forall i :: 0 <= i < |rs| ==> rs[i].cycle != []
  {
    if rs == [] then []
    else Intentional(kinds, controls, rs[..|rs| - 1]) + AsLoop(kinds, controls, rs[|rs| - 1].cycle)
  }

  function Accidental(kinds: map<string, string>, controls: set<string>, rs: seq<Report>): seq<seq<string>>
    requires forall i :: 0 <= i < |rs| ==> rs[i].cycle != []
  {
    if rs == [] then []
    else Accidental(kinds, controls, rs[..|rs| - 1]) + AsAccident(kinds, controls, rs[|rs| - 1].cycle)
  }

  lemma {:induction false} CycleReachersExact(g: Graph, order: seq<string>)
    requires Distinct(order)
    ensures var r := CycleReachers(g, order);
      && Distinct(r)
      && (forall n :: n in r <==> n in order && CanReachCycle(g, n))
  {
    if order == [] {
    } else {
      CycleReachersExact(g, order[1..]);
      var rest := CycleReachers(g, order[1..]);
      assert order == [order[0]] + order[1..];
      assert order[0] !in order[1..];
      assert forall i :: 0 <= i < |rest| ==> rest[i] in order[1..];
    }
  }

  lemma {:induction false} DistinctLength(s: seq<string>, t: set<string>)
    requires Distinct(s) && forall n :: n in s <==> n in t
    ensures |s| == |t|
  {
    if s == [] {
      assert t == {};
    } else {
      assert s == [s[0]] + s[1..];
      assert forall n :: n in s[1..] <==> n in t - {s[0]};
      DistinctLength(s[1..], t - {s[0]});
    }
  }

  lemma {:induction false} EveryReportIsFiled(kinds: map<string, string>, controls: set<string>, rs: seq<Report>)
    requires forall i :: 0 <= i < |rs| ==> rs[i].cycle != []
    ensures |Intentional(kinds, controls, rs)| + |Accidental(kinds, controls, rs)| == |rs|
  {
    if rs == [] {
    } else {
      EveryReportIsFiled(kinds, controls, rs[..|rs| - 1]);
    }
  }

  ghost predicate Enumerates(order: seq<string>, g: Graph) {
    Distinct(order) && forall n :: n in order <==> n in g
  }

  /** Completeness: exactly as many reports as nodes that can reach a cycle. */
  lemma ReportCount(g: Graph, order: seq<string>, kinds: map<string, string>, controls: set<string>)
    requires Closed(g) && Enumerates(order, g)
    ensures AllSound(g, Sweep(g, FRESH, order))
    ensures var rs := Sweep(g, FRESH, order);
      |Intentional(kinds, controls, rs)| + |Accidental(kinds, controls, rs)|
      == |set n | n in g && CanReachCycle(g, n)|
  {
    var rs := Sweep(g, FRESH, order);
    SweepExact(g, FRESH, order);
    CycleReachersExact(g, order);
    DistinctLength(CycleReachers(g, order), set n | n in g && CanReachCycle(g, n));
    EveryReportIsFiled(kinds, controls, rs);
    assert |Roots(rs)| == |rs|;
  }

  lemma CycleNodeReachesIt(g: Graph, c: seq<string>)
    requires IsCycle(g, c)
    ensures CanReach(g, c[0], c) && CanReachCycle(g, c[0])
  {
    assert LeadsTo(g, c[0], [c[0]], c);
  }

  /** No report at all exactly for acyclic workflows. */
  lemma NoReportIffAcyclic(g: Graph, order: seq<string>)
    requires Closed(g) && Enumerates(order, g)
    ensures Sweep(g, FRESH, order) == [] <==> Acyclic(g)
  {
    SweepExact(g, FRESH, order);
    CycleReachersExact(g, order);
    var rs := Sweep(g, FRESH, order);
    if c :| IsCycle(g, c) {
      CycleNodeReachesIt(g, c);
      assert c[0] in CycleReachers(g, order);
    }
    if rs != [] {
      assert SoundReport(g, rs[0]);
      assert IsCycle(g, rs[0].cycle);
    }
  }

  lemma FiledByControlNode(kinds: map<string, string>, controls: set<string>, c: seq<string>)
    requires c != []
    ensures AsAccident(kinds, controls, c) == if Controlled(kinds, controls, c) then [] else [c]
    ensures !Controlled(kinds, controls, c) ==> AsLoop(kinds, controls, c) == []
    ensures Controlled(kinds, controls, c) ==> exists n ::
      n in c && IsControl(kinds, controls, n) && AsLoop(kinds, controls, c) == [LoopInfo(c, n)]
  {
    var ns := c[..|c| - 1];
    ControlNodesExact(kinds, controls, ns);
    var inside := ControlNodes(kinds, controls, ns);
    if inside != [] {
      assert inside[0] in inside;
      var k :| 0 <= k < |ns| && ns[k] == inside[0];
      assert c[k] == inside[0];
    } else {
      assert forall k :: 0 <= k < |ns| ==> c[k] in ns;
    }
  }

  /** The accidental list is the reported cycles without a control node, in order. */
  ghost function Uncontrolled(kinds: map<string, string>, controls: set<string>, rs: seq<Report>): seq<seq<string>> {
    if rs == [] then []
    else
      var c := rs[|rs| - 1].cycle;
      Uncontrolled(kinds, controls, rs[..|rs| - 1]) + (if Controlled(kinds, controls, c) then [] else [c])
  }

  ghost predicate LoopOf(kinds: map<string, string>, controls: set<string>, rs: seq<Report>, l: LoopInfo) {
    && Controlled(kinds, controls, l.path) && l.controlNode in l.path
    && IsControl(kinds, controls, l.controlNode)
    && exists i :: 0 <= i < |rs| && rs[i].cycle == l.path
  }

  /** A filed loop is a reported cycle with one of its control nodes; the rest have none. */
  lemma {:induction false} FilingIsByControlNode(kinds: map<string, string>, controls: set<string>, rs: seq<Report>)
    requires forall i :: 0 <= i < |rs| ==> rs[i].cycle != []
    ensures forall i :: 0 <= i < |Intentional(kinds, controls, rs)| ==>
      LoopOf(kinds, controls, rs, Intentional(kinds, controls, rs)[i])
    ensures Accidental(kinds, controls, rs) == Uncontrolled(kinds, controls, rs)
  {
    hide AsLoop, AsAccident, Controlled, IsControl, ControlNodes;
    if rs == [] {
    } else {
      var init, c := rs[..|rs| - 1], rs[|rs| - 1].cycle;
      FilingIsByControlNode(kinds, controls, init);
      FiledByControlNode(kinds, controls, c);
      var before, loops := Intentional(kinds, controls, init), Intentional(kinds, controls, rs);
      forall i | 0 <= i < |loops| ensures LoopOf(kinds, controls, rs, loops[i]) {
        if i < |before| {
          assert LoopOf(kinds, controls, init, before[i]);
          var j :| 0 <= j < |init| && init[j].cycle == before[i].path;
          assert rs[j] == init[j];
        } else {
          assert loops[i].path == c && rs[|rs| - 1].cycle == loops[i].path;
        }
      }
    }
  }

  function IsControlled(kinds: map<string, string>, controls: set<string>): Report -> bool {
    (r: Report) => Controlled(kinds, controls, r.cycle)
  }

  function IsUncontrolled(kinds: map<string, string>, controls: set<string>): Report -> bool {
    (r: Report) => !Controlled(kinds, controls, r.cycle)
  }

  const CYCLE: Report -> seq<string> := (r: Report) => r.cycle

  function Paths(ls: seq<LoopInfo>): seq<seq<string>> {
    seq(|ls|, i requires 0 <= i < |ls| => ls[i].path)
  }

  ghost predicate FirstControlAt(kinds: map<string, string>, controls: set<string>, ns: seq<string>, k: nat) {
    && k < |ns| && IsControl(kinds, controls, ns[k])
    && forall j :: 0 <= j < k ==> !IsControl(kinds, controls, ns[j])
  }

  /** n is the first control node on the cycle. */
  ghost predicate IsFirstControl(kinds: map<string, string>, controls: set<string>, c: seq<string>, n: string) {
    exists k: nat :: k < |c| - 1 && c[k] == n && FirstControlAt(kinds, controls, c, k)
  }

  lemma {:induction false} FirstControlNode(kinds: map<string, string>, controls: set<string>, ns: seq<string>)
    returns (k: nat)
    requires ControlNodes(kinds, controls, ns) != []
    ensures FirstControlAt(kinds, controls, ns, k) && ns[k] == ControlNodes(kinds, controls, ns)[0]
  {
    if IsControl(kinds, controls, ns[0]) {
      k := 0;
    } else {
      var j := FirstControlNode(kinds, controls, ns[1..]);
      k := j + 1;
      assert ns == [ns[0]] + ns[1..];
    }
  }

  lemma LoopHasFirstControl(kinds: map<string, string>, controls: set<string>, c: seq<string>)
    requires c != [] && AsLoop(kinds, controls, c) != []
    ensures var l := AsLoop(kinds, controls, c)[0]; l.path == c && IsFirstControl(kinds, controls, c, l.controlNode)
  {
    var ns := c[..|c| - 1];
    var k := FirstControlNode(kinds, controls, ns);
    assert c[k] == ns[k] && forall j :: 0 <= j < k ==> c[j] == ns[j];
    assert FirstControlAt(kinds, controls, c, k);
  }

  /** Each reported cycle is filed once, and both lists keep the order of the reports. */
  lemma {:induction false} FilingInOrder(kinds: map<string, string>, controls: set<string>, rs: seq<Report>)
    requires forall i :: 0 <= i < |rs| ==> rs[i].cycle != []
    ensures Picks(rs, IsControlled(kinds, controls), CYCLE, Paths(Intentional(kinds, controls, rs)))
    ensures Picks(rs, IsUncontrolled(kinds, controls), CYCLE, Accidental(kinds, controls, rs))
  {
    hide Picks, PicksAt, Controlled, AsLoop, AsAccident;
    var yes, no := IsControlled(kinds, controls), IsUncontrolled(kinds, controls);
    if rs == [] {
      PicksNothing(yes, CYCLE);
      PicksNothing(no, CYCLE);
      assert Paths(Intentional(kinds, controls, rs)) == [];
    } else {
      var init, last := rs[..|rs| - 1], rs[|rs| - 1];
      FilingInOrder(kinds, controls, init);
      FiledByControlNode(kinds, controls, last.cycle);
      var before, l := Intentional(kinds, controls, init), AsLoop(kinds, controls, last.cycle);
      PicksAppend(init, yes, CYCLE, Paths(before), last);
      PicksAppend(init, no, CYCLE, Accidental(kinds, controls, init), last);
      assert init + [last] == rs;
      assert Accidental(kinds, controls, init) + [] == Accidental(kinds, controls, init);
      PathsAppend(kinds, controls, before, last.cycle);
    }
  }

  lemma PathsAppend(kinds: map<string, string>, controls: set<string>, ls: seq<LoopInfo>, c: seq<string>)
    requires c != []
    ensures Paths(ls + AsLoop(kinds, controls, c)) == if Controlled(kinds, controls, c) then Paths(ls) + [c] else Paths(ls)
  {
    FiledByControlNode(kinds, controls, c);
    hide AsLoop, Controlled;
  }

  /** A loop names its first control node. */
  lemma {:induction false} LoopsNameFirstControl(kinds: map<string, string>, controls: set<string>, rs: seq<Report>)
    requires forall i :: 0 <= i < |rs| ==> rs[i].cycle != []
    ensures forall i :: 0 <= i < |Intentional(kinds, controls, rs)| ==>
      var l := Intentional(kinds, controls, rs)[i]; IsFirstControl(kinds, controls, l.path, l.controlNode)
  {
    if rs == [] {
    } else {
      hide IsFirstControl;
      var c := rs[|rs| - 1].cycle;
      LoopsNameFirstControl(kinds, controls, rs[..|rs| - 1]);
      if AsLoop(kinds, controls, c) != [] { LoopHasFirstControl(kinds, controls, c); }
    }
  }

  ghost predicate AllAreControlled(kinds: map<string, string>, controls: set<string>, rs: seq<Report>) {
    forall i :: 0 <= i < |rs| ==> Controlled(kinds, controls, rs[i].cycle)
  }

  lemma {:induction false} UncontrolledExact(kinds: map<string, string>, controls: set<string>, rs: seq<Report>)
    ensures forall i :: 0 <= i < |rs| && !Controlled(kinds, controls, rs[i].cycle) ==>
      rs[i].cycle in Uncontrolled(kinds, controls, rs)
    ensures forall c :: c in Uncontrolled(kinds, controls, rs) ==>
      !Controlled(kinds, controls, c) && exists i :: 0 <= i < |rs| && rs[i].cycle == c
    ensures AllAreControlled(kinds, controls, rs) ==> Uncontrolled(kinds, controls, rs) == []
  {
    if rs == [] {
    } else {
      var init := rs[..|rs| - 1];
      UncontrolledExact(kinds, controls, init);
      assert forall i :: 0 <= i < |init| ==> rs[i] == init[i];
    }
  }

  /** No node reaches both a cycle with a control node and one without. */
  ghost predicate Unmixed(g: Graph, kinds: map<string, string>, controls: set<string>) {
    forall n, c, d :: CanReach(g, n, c) && CanReach(g, n, d)
      ==> (Controlled(kinds, controls, c) <==> Controlled(kinds, controls, d))
  }

  ghost predicate AllControlled(g: Graph, kinds: map<string, string>, controls: set<string>) {
    forall c :: IsCycle(g, c) ==> Controlled(kinds, controls, c)
  }

  /** Every loop that a search can report has a control node. */
  ghost predicate LoopsControlled(g: Graph, kinds: map<string, string>, controls: set<string>)
    requires Closed(g)
  {
    forall n :: n in g && CanReachCycle(g, n) ==> Controlled(kinds, controls, Loop(g, n))
  }

  /** No accidental-cycle error is raised exactly when every loop of First has a control node,
      whatever the order of the nodes. */
  lemma AccidentalErrors(g: Graph, order: seq<string>, kinds: map<string, string>, controls: set<string>)
    requires Closed(g) && Enumerates(order, g)
    ensures AllSound(g, Sweep(g, FRESH, order))
    ensures Accidental(kinds, controls, Sweep(g, FRESH, order)) == [] <==> LoopsControlled(g, kinds, controls)
  {
    hide Visit, Scan, Sweep, Intentional, Accidental, Uncontrolled, Controlled, CanReachCycle, Loop;
    var rs := Sweep(g, FRESH, order);
    SweepExact(g, FRESH, order);
    ReportsExact(g, order);
    FilingIsByControlNode(kinds, controls, rs);
    UncontrolledExact(kinds, controls, rs);
    var accidental := Accidental(kinds, controls, rs);
    if accidental != [] {
      assert accidental[0] in accidental;
      var i :| 0 <= i < |rs| && rs[i].cycle == accidental[0];
      assert rs[i] in rs && IsReport(g, rs[i]);
    } else {
      forall n | n in g && CanReachCycle(g, n) ensures Controlled(kinds, controls, Loop(g, n)) {
        var r := Report(n, Loop(g, n));
        assert IsReport(g, r) && r in rs;
        var i :| 0 <= i < |rs| && rs[i] == r;
        assert rs[i].cycle !in accidental;
      }
    }
  }

  lemma LoopIsCycle(g: Graph, n: string, order: seq<string>)
    requires Closed(g) && n in g && CanReachCycle(g, n) && Enumerates(order, g)
    ensures IsSimpleCycle(g, Loop(g, n)) && CanReach(g, n, Loop(g, n))
  {
    hide Sweep, CanReachCycle, Loop;
    SweepExact(g, FRESH, order);
    ReportsExact(g, order);
    var rs, r := Sweep(g, FRESH, order), Report(n, Loop(g, n));
    assert IsReport(g, r);
    var i :| 0 <= i < |rs| && rs[i] == r;
    assert SoundReport(g, rs[i]);
  }

  /** An uncontrolled cycle raises the error exactly if some loop of First is uncontrolled, too.
      In particular the error means an uncontrolled cycle; and where no node reaches both kinds of
      cycle it is raised exactly for one. */
  lemma AccidentalCycleIsReportedIff(g: Graph, order: seq<string>, kinds: map<string, string>, controls: set<string>)
    requires Closed(g) && Enumerates(order, g)
    ensures AllSound(g, Sweep(g, FRESH, order))
    ensures var raised := Accidental(kinds, controls, Sweep(g, FRESH, order)) != [];
      && (raised ==> !AllControlled(g, kinds, controls))
      && ((!AllControlled(g, kinds, controls) ==> raised) <==>
            (AllControlled(g, kinds, controls) || !LoopsControlled(g, kinds, controls)))
      && (Unmixed(g, kinds, controls) ==> (raised <==> !AllControlled(g, kinds, controls)))
  {
    hide Sweep, Accidental, Loop, CanReachCycle, Controlled;
    AccidentalErrors(g, order, kinds, controls);
    if !LoopsControlled(g, kinds, controls) {
      var n :| n in g && CanReachCycle(g, n) && !Controlled(kinds, controls, Loop(g, n));
      LoopIsCycle(g, n, order);
    }
    forall c | IsCycle(g, c) && Unmixed(g, kinds, controls) && LoopsControlled(g, kinds, controls)
      ensures Controlled(kinds, controls, c)
    {
      CycleNodeReachesIt(g, c);
      assert c[0] in g;
      LoopIsCycle(g, c[0], order);
    }
  }

  // ---------- Two cycles that share a node ----------

  /** Edges a -> b, a -> c, b -> a, c -> a: cycles a-b and a-c share node a. */
  function Shared(a: string, b: string, c: string): Graph {
    map[a := [b, c], b := [a], c := [a]]
  }

  /** Two nodes whose first edges lead to each other. */
  lemma LoopOfTwo(g: Graph, x: string, y: string)
    requires Closed(g) && x != y && Edge(g, x, y) && Edge(g, y, x) && g[x][0] == y && g[y][0] == x
    ensures CanReachCycle(g, x) && Loop(g, x) == [x, y, x]
  {
    CycleNodeReachesIt(g, [x, y, x]);
    CycleNodeReachesIt(g, [y, x, y]);
    hide CanReachCycle, Chase, IsWalk;
    ChaseStep(g, [x], y, 0);
    assert [x] + [y] == [x, y];
    ChaseStep(g, [x, y], x, 0);
    assert [x, y][0..] == [x, y] && [x, y] + [x] == [x, y, x];
  }

  /** A third node whose first edge leads to one of them. */
  lemma LoopOfThird(g: Graph, x: string, y: string, z: string)
    requires Closed(g) && x != y && y != z && x != z && Edge(g, x, y) && Edge(g, y, x) && Edge(g, z, x)
    requires g[x][0] == y && g[y][0] == x && g[z][0] == x && CanReachCycle(g, z)
    ensures Loop(g, z) == [x, y, x]
  {
    LoopOfTwo(g, x, y);
    LoopOfTwo(g, y, x);
    hide CanReachCycle, Chase, IsWalk;
    ChaseStep(g, [z], x, 0);
    assert [z] + [x] == [z, x] && [z, x] + [y] == [z, x, y];
    ChaseStep(g, [z, x], y, 0);
    ChaseStep(g, [z, x, y], x, 0);
    assert [z, x, y][1..] == [x, y] && [x, y] + [x] == [x, y, x];
  }

  /** Following First from any node meets the edge a -> b and never a -> c. */
  lemma SharedLoops(g: Graph, a: string, b: string, c: string)
    requires a != b && b != c && a != c && g == Shared(a, b, c)
    ensures Closed(g) && g.Keys == {a, b, c} && IsCycle(g, [a, c, a])
    ensures CanReachCycle(g, a) && CanReachCycle(g, b) && CanReachCycle(g, c)
    ensures Loop(g, a) == [a, b, a] && Loop(g, b) == [b, a, b] && Loop(g, c) == [a, b, a]
  {
    assert Edge(g, a, b) && Edge(g, b, a) && Edge(g, a, c) && Edge(g, c, a);
    CycleNodeReachesIt(g, [c, a, c]);
    hide CanReachCycle, Loop;
    LoopOfTwo(g, a, b);
    LoopOfTwo(g, b, a);
    LoopOfThird(g, a, b, c);
  }

  lemma SharedLoopsControlled(g: Graph, a: string, b: string, c: string,
                              kinds: map<string, string>, controls: set<string>)
    requires Closed(g) && g.Keys == {a, b, c} && IsControl(kinds, controls, b)
    requires CanReachCycle(g, a) && CanReachCycle(g, b) && CanReachCycle(g, c)
    requires Loop(g, a) == [a, b, a] && Loop(g, b) == [b, a, b] && Loop(g, c) == [a, b, a]
    ensures LoopsControlled(g, kinds, controls)
  {
    hide Loop, CanReachCycle, IsControl, Closed;
    assert [a, b, a][1] == b && [b, a, b][0] == b;
    assert Controlled(kinds, controls, [a, b, a]) && Controlled(kinds, controls, [b, a, b]);
    forall n | n in g && CanReachCycle(g, n) ensures Controlled(kinds, controls, Loop(g, n)) {
      assert n == a || n == b || n == c;
    }
  }

  /** An uncontrolled cycle a-c goes unreported in every order of the nodes: each of them first
      finds the controlled a-b. */
  lemma SharedNodeHidesAccidentalCycle(g: Graph, a: string, b: string, c: string, order: seq<string>,
                                       kinds: map<string, string>, controls: set<string>)
    requires a != b && b != c && a != c && g == Shared(a, b, c) && Enumerates(order, g)
    requires IsControl(kinds, controls, b) && !IsControl(kinds, controls, a) && !IsControl(kinds, controls, c)
    ensures Closed(g) && AllSound(g, Sweep(g, FRESH, order))
    ensures Accidental(kinds, controls, Sweep(g, FRESH, order)) == []
    ensures IsCycle(g, [a, c, a]) && !Controlled(kinds, controls, [a, c, a])
  {
    hide Loop, IsCycle, Sweep, CanReachCycle, Accidental, IsControl, LoopsControlled, Closed, Enumerates, AllSound, Shared;
    SharedLoops(g, a, b, c);
    SharedLoopsControlled(g, a, b, c, kinds, controls);
    AccidentalErrors(g, order, kinds, controls);
  }

  // ---------- The code: building the graph, the recursive search, the outer loop ----------

  /** Node types by id: nodes without an id are dropped, the last of equal ids wins. */
  function KindMap(nodes: seq<NodeDecl>): map<string, string> {
    if nodes == [] then map[]
    else
      var last, m := nodes[|nodes| - 1], KindMap(nodes[..|nodes| - 1]);
      if last.id == "" then m
      else m[last.id := if last.kind.Some? then last.kind.value else "operator"]
  }

  function Targets(edges: seq<EdgeDecl>, ids: set<string>, n: string): (r: seq<string>)
    ensures forall t :: t in r ==> t in ids
  {
    if edges == [] then []
    else
      var last, r := edges[|edges| - 1], Targets(edges[..|edges| - 1], ids, n);
      if last.source == n && last.target in ids then r + [last.target] else r
  }

  function GraphOf(nodes: seq<NodeDecl>, edges: seq<EdgeDecl>): (g: Graph)
    ensures Closed(g)
  {
    var ids := KindMap(nodes).Keys;
    map n | n in ids :: Targets(edges, ids, n)
  }

  ghost predicate Declared(nodes: seq<NodeDecl>, n: string) {
    n != "" && exists i :: 0 <= i < |nodes| && nodes[i].id == n
  }

  ghost predicate Connects(edges: seq<EdgeDecl>, u: string, v: string) {
    exists i :: 0 <= i < |edges| && edges[i] == EdgeDecl(u, v)
  }

  ghost predicate LastDeclared(nodes: seq<NodeDecl>, i: nat)
    requires i < |nodes|
  {
    nodes[i].id != "" && forall j :: i < j < |nodes| ==> nodes[j].id != nodes[i].id
  }

  lemma {:induction false} KindsExact(nodes: seq<NodeDecl>, n: string)
    ensures n in KindMap(nodes) <==> Declared(nodes, n)
  {
    if nodes == [] {
    } else {
      var init := nodes[..|nodes| - 1];
      KindsExact(init, n);
      assert forall i :: 0 <= i < |init| ==> init[i] == nodes[i];
    }
  }

  /** The type of a node is that of its last declaration. */
  lemma {:induction false} LastTypeWins(nodes: seq<NodeDecl>, i: nat)
    requires i < |nodes| && LastDeclared(nodes, i)
    ensures nodes[i].id in KindMap(nodes)
    ensures KindMap(nodes)[nodes[i].id] == if nodes[i].kind.Some? then nodes[i].kind.value else "operator"
  {
    var init := nodes[..|nodes| - 1];
    if i == |init| {
    } else {
      assert nodes[|init|].id != nodes[i].id;
      assert init[i] == nodes[i];
      assert forall j :: i < j < |init| ==> init[j] == nodes[j];
      LastTypeWins(init, i);
    }
  }

  lemma {:induction false} TargetsExact(edges: seq<EdgeDecl>, ids: set<string>, u: string)
    ensures forall v :: v in Targets(edges, ids, u) <==> Connects(edges, u, v) && v in ids
  {
    if edges == [] {
    } else {
      var init, last := edges[..|edges| - 1], edges[|edges| - 1];
      TargetsExact(init, ids, u);
      forall v ensures Connects(edges, u, v) <==> Connects(init, u, v) || last == EdgeDecl(u, v) {
        if Connects(init, u, v) {
          var i :| 0 <= i < |init| && init[i] == EdgeDecl(u, v);
          assert edges[i] == init[i];
        }
      }
    }
  }

  /** The graph has an edge exactly where some declaration connects two declared nodes. */
  lemma GraphExact(nodes: seq<NodeDecl>, edges: seq<EdgeDecl>, u: string, v: string)
    ensures u in GraphOf(nodes, edges) <==> Declared(nodes, u)
    ensures Edge(GraphOf(nodes, edges), u, v) <==> Declared(nodes, u) && Declared(nodes, v) && Connects(edges, u, v)
  {
    KindsExact(nodes, u);
    KindsExact(nodes, v);
    TargetsExact(edges, KindMap(nodes).Keys, u);
    hide KindMap, Targets;
  }

  function LeadsFrom(ids: set<string>, u: string): EdgeDecl -> bool {
    (e: EdgeDecl) => e.source == u && e.target in ids
  }

  const TARGET: EdgeDecl -> string := (e: EdgeDecl) => e.target

  lemma {:induction false} TargetsInOrder(edges: seq<EdgeDecl>, ids: set<string>, u: string)
    ensures Picks(edges, LeadsFrom(ids, u), TARGET, Targets(edges, ids, u))
  {
    hide Picks, PicksAt;
    if edges == [] {
      PicksNothing(LeadsFrom(ids, u), TARGET);
    } else {
      var init, last := edges[..|edges| - 1], edges[|edges| - 1];
      TargetsInOrder(init, ids, u);
      PicksAppend(init, LeadsFrom(ids, u), TARGET, Targets(init, ids, u), last);
      assert init + [last] == edges;
    }
  }

  /** The neighbours of a node are the declared targets of its edge declarations, one for each
      declaration and in their order. */
  lemma NeighboursInOrder(nodes: seq<NodeDecl>, edges: seq<EdgeDecl>, u: string) returns (at: seq<nat>)
    requires Declared(nodes, u)
    ensures u in GraphOf(nodes, edges) && |at| == |GraphOf(nodes, edges)[u]|
    ensures forall i, j :: 0 <= i < j < |at| ==> at[i] < at[j]
    ensures forall i :: 0 <= i < |at| ==> at[i] < |edges| && edges[at[i]] == EdgeDecl(u, GraphOf(nodes, edges)[u][i])
    ensures forall k :: 0 <= k < |edges| && edges[k].source == u && Declared(nodes, edges[k].target) ==> k in at
  {
    var ids, ns := KindMap(nodes).Keys, GraphOf(nodes, edges)[u] by { GraphExact(nodes, edges, u, u); }
    TargetsInOrder(edges, ids, u);
    at :| PicksAt(edges, LeadsFrom(ids, u), TARGET, ns, at);
    forall k | 0 <= k < |edges| && edges[k].source == u && Declared(nodes, edges[k].target) ensures k in at {
      KindsExact(nodes, edges[k].target);
    }
    hide KindMap, Targets;
  }

  function TypeOf(n: NodeDecl): string {
    if n.kind.Some? then n.kind.value else "operator"
  }

  lemma {:induction false} LastDeclaration(nodes: seq<NodeDecl>, n: string) returns (i: nat)
    requires Declared(nodes, n)
    ensures i < |nodes| && LastDeclared(nodes, i) && nodes[i].id == n
  {
    var last := |nodes| - 1;
    if nodes[last].id == n {
      i := last;
    } else {
      assert forall j :: 0 <= j < last ==> nodes[..last][j] == nodes[j];
      i := LastDeclaration(nodes[..last], n);
    }
  }

  /** A node is a control node exactly if its last declaration has a control type. */
  lemma ControlIsDeclaredType(nodes: seq<NodeDecl>, controls: set<string>, n: string)
    ensures IsControl(KindMap(nodes), controls, n) <==>
      exists i :: 0 <= i < |nodes| && LastDeclared(nodes, i) && nodes[i].id == n && TypeOf(nodes[i]) in controls
  {
    KindsExact(nodes, n);
    if Declared(nodes, n) {
      var i := LastDeclaration(nodes, n);
      LastTypeWins(nodes, i);
    }
    forall i | 0 <= i < |nodes| && LastDeclared(nodes, i) && nodes[i].id == n
      ensures n in KindMap(nodes) && KindMap(nodes)[n] == TypeOf(nodes[i])
    {
      LastTypeWins(nodes, i);
    }
  }

  method KindsOf(nodes: seq<NodeDecl>) returns (kinds: map<string, string>)
    ensures kinds == KindMap(nodes)
  {
    kinds := map[];
    for i := 0 to |nodes|
      invariant kinds == KindMap(nodes[..i])
    {
      assert nodes[..i + 1][..i] == nodes[..i];
      if nodes[i].id != "" {
        kinds := kinds[nodes[i].id := if nodes[i].kind.Some? then nodes[i].kind.value else "operator"];
      }
    }
    assert nodes[..|nodes|] == nodes;
  }

  /** The node order is that of a Python set, so any enumeration of the ids. */
  method BuildGraph(nodes: seq<NodeDecl>, edges: seq<EdgeDecl>)
    returns (kinds: map<string, string>, graph: Graph, order: seq<string>)
    ensures kinds == KindMap(nodes) && graph == GraphOf(nodes, edges)
    ensures Enumerates(order, graph)
  {
    hide KindMap;
    kinds := KindsOf(nodes);
    var rest := kinds.Keys;
    graph, order := map[], [];
    while rest != {}
      invariant rest <= kinds.Keys && graph.Keys == kinds.Keys - rest && Enumerates(order, graph)
      invariant forall n :: n in graph ==> graph[n] == []
    {
      var n :| n in rest;
      rest, graph, order := rest - {n}, graph[n := []], order + [n];
    }
    for i := 0 to |edges|
      invariant graph == map n | n in kinds.Keys :: Targets(edges[..i], kinds.Keys, n)
    {
      assert edges[..i + 1][..i] == edges[..i];
      var e := edges[i];
      if e.source in graph && e.target in kinds {
        graph := graph[e.source := graph[e.source] + [e.target]];
      }
    }
    assert edges[..|edges|] == edges;
  }

  class CycleDetector {
    const graph: Graph
    var visited: set<string>
    var recStack: set<string>
    var path: seq<string>

    ghost function State(): Search
      reads this
    {
      Search(visited, recStack, path)
    }

    constructor (graph: Graph)
      ensures this.graph == graph && State() == FRESH
    {
      this.graph := graph;
      visited, recStack, path := {}, {}, [];
    }

    method Dfs(node: string) returns (cycle: Option<seq<string>>)
      requires Closed(graph) && Consistent(graph, State()) && node in graph && node !in visited
      modifies this
      ensures Outcome(cycle, State()) == Visit(graph, old(State()), node)
      decreases graph.Keys - visited
    {
      ghost var was := State();
      assert node !in path;
      visited, recStack, path := visited + {node}, recStack + {node}, path + [node];
      for i := 0 to |graph[node]|
        invariant Consistent(graph, State()) && path == was.path + [node] && was.visited + {node} <= visited
        invariant Scan(graph, State(), node, i) == Visit(graph, was, node)
      {
        var neighbor := graph[node][i];
        if neighbor !in visited {
          var result := Dfs(neighbor);
          if result.Some? {
            return result;
          }
        } else if neighbor in recStack {
          return Some(path[Position(path, neighbor)..] + [neighbor]);
        }
      }
      path, recStack := path[..|path| - 1], recStack - {node};
      return None;
    }

    /** `visited.clear()`, `rec_stack.clear()`, `path.clear()`. */
    method Clear()
      modifies this
      ensures State() == FRESH
    {
      visited, recStack, path := {}, {}, [];
    }
  }

  lemma NothingFiled(kinds: map<string, string>, controls: set<string>)
    ensures Intentional(kinds, controls, []) == [] && Accidental(kinds, controls, []) == []
  {
  }

  lemma SweepOfNothing(g: Graph, s: Search)
    requires Closed(g) && Consistent(g, s) && s.path == []
    ensures Sweep(g, s, []) == []
  {
  }

  lemma SweepStep(g: Graph, s: Search, order: seq<string>)
    requires Closed(g) && Searching(g, s) && s.path == [] && order != [] && forall n :: n in order ==> n in g
    ensures order[0] in s.visited ==> Sweep(g, s, order) == Sweep(g, s, order[1..])
    ensures order[0] !in s.visited ==>
      var o := Visit(g, s, order[0]);
      && (o.cycle.None? ==> Sweep(g, s, order) == Sweep(g, o.after, order[1..]))
      && (o.cycle.Some? ==>
        && Sweep(g, s, order) != [] && Sweep(g, s, order)[0] == Report(order[0], o.cycle.value)
        && Sweep(g, s, order)[1..] == Sweep(g, FRESH, order[1..]))
  {
    hide Visit, Scan;
    if order[0] !in s.visited && Visit(g, s, order[0]).cycle.Some? {
      assert Sweep(g, s, order)
        == [Report(order[0], Visit(g, s, order[0]).cycle.value)] + Sweep(g, FRESH, order[1..]);
    }
  }

  lemma FilingAppends(kinds: map<string, string>, controls: set<string>, rs: seq<Report>, r: Report)
    requires r.cycle != [] && forall i :: 0 <= i < |rs| ==> rs[i].cycle != []
    ensures var inside := ControlNodes(kinds, controls, r.cycle[..|r.cycle| - 1]);
      if inside != [] then
        && Intentional(kinds, controls, rs + [r])
          == Intentional(kinds, controls, rs) + [LoopInfo(r.cycle, inside[0])]
        && Accidental(kinds, controls, rs + [r]) == Accidental(kinds, controls, rs)
      else
        && Intentional(kinds, controls, rs + [r]) == Intentional(kinds, controls, rs)
        && Accidental(kinds, controls, rs + [r]) == Accidental(kinds, controls, rs) + [r.cycle]
  {
    assert (rs + [r])[..|rs|] == rs;
  }

  /** The outer loop: search from each unvisited node, file what is found, start afresh. */
  method SweepNodes(detector: CycleDetector, ids: seq<string>, kinds: map<string, string>, controls: set<string>)
    returns (intentional: seq<LoopInfo>, accidental: seq<seq<string>>)
    requires Closed(detector.graph) && detector.State() == FRESH && Enumerates(ids, detector.graph)
    modifies detector
    ensures AllSound(detector.graph, Sweep(detector.graph, FRESH, ids))
    ensures intentional == Intentional(kinds, controls, Sweep(detector.graph, FRESH, ids))
    ensures accidental == Accidental(kinds, controls, Sweep(detector.graph, FRESH, ids))
  {
    hide Visit, Scan, Sweep, Intentional, Accidental, ControlNodes, CanReachCycle, IsWalk, IsReport, AllLoops;
    ghost var graph := detector.graph;
    SweepExact(graph, FRESH, ids);
    ghost var all := Sweep(graph, FRESH, ids);
    intentional, accidental := [], [];
    ghost var reports := [];
    assert Intentional(kinds, controls, []) == [] && Accidental(kinds, controls, []) == [] by { NothingFiled(kinds, controls); }
    for i := 0 to |ids|
      invariant Searching(graph, detector.State()) && detector.path == []
      invariant reports <= all
      invariant Sweep(graph, detector.State(), ids[i..]) == all[|reports|..]
      invariant intentional == Intentional(kinds, controls, reports)
      invariant accidental == Accidental(kinds, controls, reports)
    {
      SweepStep(graph, detector.State(), ids[i..]);
      assert ids[i..][1..] == ids[i + 1..] && ids[i] in graph;
      if ids[i] !in detector.visited {
        VisitFromRoot(graph, detector.State(), ids[i]);
        var found := detector.Dfs(ids[i]);
        if found.Some? {
          var cycle := found.value;
          ghost var r := Report(ids[i], cycle);
          assert all[|reports|..][1..] == all[|reports| + 1..];
          assert all[|reports|] == r;
          FilingAppends(kinds, controls, reports, r);
          reports := reports + [r];
          var inside := ControlNodes(kinds, controls, cycle[..|cycle| - 1]);
          if inside != [] {
            intentional := intentional + [LoopInfo(cycle, inside[0])];
          } else {
            accidental := accidental + [cycle];
          }
          detector.Clear();
        }
      }
    }
    assert ids[|ids|..] == [] && Sweep(graph, detector.State(), []) == [] by { SweepOfNothing(graph, detector.State()); }
    assert reports == all;
  }

  /** The whole detection, whatever the order the nodes come in. */
  method DetectCyclesWithIntent(nodes: seq<NodeDecl>, edges: seq<EdgeDecl>, controls: set<string>)
    returns (intentional: seq<LoopInfo>, accidental: seq<seq<string>>, ghost order: seq<string>)
    ensures var g := GraphOf(nodes, edges);
      |intentional| + |accidental| == |set n | n in g && CanReachCycle(g, n)|
    ensures forall l :: l in intentional ==>
      IsSimpleCycle(GraphOf(nodes, edges), l.path) && l.controlNode in l.path
      && IsControl(KindMap(nodes), controls, l.controlNode)
    ensures forall c :: c in accidental ==>
      IsSimpleCycle(GraphOf(nodes, edges), c) && !Controlled(KindMap(nodes), controls, c)
    ensures var g := GraphOf(nodes, edges);
      && Enumerates(order, g) && AllSound(g, Sweep(g, FRESH, order))
      && intentional == Intentional(KindMap(nodes), controls, Sweep(g, FRESH, order))
      && accidental == Accidental(KindMap(nodes), controls, Sweep(g, FRESH, order))
  {
    hide Visit, Scan, Sweep, Intentional, Accidental, KindMap, GraphOf, CanReachCycle, IsWalk;
    var kinds, graph, ids := BuildGraph(nodes, edges);
    order := ids;
    var detector := new CycleDetector(graph);
    intentional, accidental := SweepNodes(detector, ids, kinds, controls);
    ReportCount(graph, order, kinds, controls);
    FilingIsByControlNode(kinds, controls, Sweep(graph, FRESH, order));
    UncontrolledExact(kinds, controls, Sweep(graph, FRESH, order));
  }

  /** The cycle findings of validate_workflow_complexity: infos for the intentional loops, errors
      for the accidental ones.  The workflow passes without an error exactly when every loop of
      First has a node of a loop type. */
  method ValidateCycles(nodes: seq<NodeDecl>, edges: seq<EdgeDecl>)
    returns (infos: seq<LoopInfo>, errors: seq<seq<string>>)
    ensures errors == [] <==> LoopsControlled(GraphOf(nodes, edges), KindMap(nodes), INTENTIONAL_LOOP_NODE_TYPES)
    ensures infos == [] && errors == [] <==> Acyclic(GraphOf(nodes, edges))
  {
    hide KindMap, GraphOf, Sweep, Intentional, Accidental, LoopsControlled;
    ghost var order;
    infos, errors, order := DetectCyclesWithIntent(nodes, edges, INTENTIONAL_LOOP_NODE_TYPES);
    ghost var g := GraphOf(nodes, edges);
    AccidentalErrors(g, order, KindMap(nodes), INTENTIONAL_LOOP_NODE_TYPES);
    NoReportIffAcyclic(g, order);
    EveryReportIsFiled(KindMap(nodes), INTENTIONAL_LOOP_NODE_TYPES, Sweep(g, FRESH, order));
  }
}
