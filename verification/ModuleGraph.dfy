/** The cycle finder of the module-architecture audit: a recursive three-colour
    depth-first search over the graph of `use` dependencies. */
module ModuleGraph {
  import opened Ordering

  type Name = string
  type Edge = (Name, Name)

  /** Each known module with the modules it uses; a used module may be unknown. */
  type Graph = map<Name, set<Name>>

  /** A reported cycle repeats its first module at the end. */
  type Cycle = seq<Name>

  const GREY := 1
  const BLACK := 2

  // ---- What the report is about --------------------------------------------

  /** The edges between known modules; self edges included. */
  function KnownEdges(graph: Graph): set<Edge> {
    set a, b | a in graph && b in graph[a] && b in graph :: (a, b)
  }

  ghost predicate IsWalk(walk: seq<Name>, edges: set<Edge>) {
    forall i, j :: 0 <= i < j < |walk| && j == i + 1 ==> (walk[i], walk[j]) in edges
  }

  ghost predicate IsClosedWalk(walk: seq<Name>, edges: set<Edge>) {
    |walk| >= 2 && walk[0] == walk[|walk| - 1] && IsWalk(walk, edges)
  }

  ghost predicate Acyclic(edges: set<Edge>) {
    forall walk: seq<Name> :: !IsClosedWalk(walk, edges)
  }

  predicate Distinct(names: seq<Name>) {
    forall i, j :: 0 <= i < j < |names| ==> names[i] != names[j]
  }

  /** A closed walk that visits no module twice before it closes. */
  ghost predicate IsSimpleCycle(cycle: Cycle, edges: set<Edge>) {
    IsClosedWalk(cycle, edges) && Distinct(Opened(cycle))
  }

  /** The cycle without its repeated last module. */
  function Opened(cycle: Cycle): seq<Name> {
    if cycle == [] then [] else cycle[..|cycle| - 1]
  }

  predicate EndsWith(cycle: Cycle, a: Name, b: Name) {
    |cycle| >= 2 && cycle[|cycle| - 2] == a && cycle[|cycle| - 1] == b
  }

  function ClosingEdge(cycle: Cycle): Edge
    requires |cycle| >= 2
  {
    (cycle[|cycle| - 2], cycle[|cycle| - 1])
  }

  function ClosingEdges(cycles: seq<Cycle>): set<Edge> {
    set k | 0 <= k < |cycles| && |cycles[k]| >= 2 :: ClosingEdge(cycles[k])
  }

  /** No two reported cycles end with the same edge. */
  ghost predicate DistinctClosings(cycles: seq<Cycle>) {
    forall j, k, a, b :: 0 <= j < k < |cycles| && EndsWith(cycles[j], a, b) ==> !EndsWith(cycles[k], a, b)
  }

  /** The report is a minimal feedback arc set of simple cycles: every reported
      walk is a simple cycle; without the closing edges nothing is cyclic; and
      putting back the closing edge of any one report is cyclic again. */
  ghost predicate IsCycleReport(cycles: seq<Cycle>, graph: Graph) {
    && (forall k :: 0 <= k < |cycles| ==> IsSimpleCycle(cycles[k], KnownEdges(graph)))
    && Acyclic(KnownEdges(graph) - ClosingEdges(cycles))
    && (forall k :: 0 <= k < |cycles| ==>
          !Acyclic(KnownEdges(graph) - (ClosingEdges(cycles) - {ClosingEdge(cycles[k])})))
    && DistinctClosings(cycles)
  }

  // ---- The state of the search ---------------------------------------------

  predicate IsEdge(graph: Graph, a: Name, b: Name) {
    a in graph && b in graph && b in graph[a]
  }

  ghost predicate IsPath(graph: Graph, path: seq<Name>) {
    forall i, j :: 0 <= i < j < |path| && j == i + 1 ==> IsEdge(graph, path[i], path[j])
  }

  /** (a, b) is the closing edge of a reported cycle. */
  ghost predicate IsClosing(cycles: seq<Cycle>, a: Name, b: Name) {
    exists k :: 0 <= k < |cycles| && EndsWith(cycles[k], a, b)
  }

  type Clock = map<Name, nat>

  /** The variables shared by the nested `visit`, with dates that the source does
      not keep: `pre` of each entry, `post` of each completion, `now` the next. */
  datatype Search = Search(
    state: map<Name, int>,
    stack: seq<Name>,
    cycles: seq<Cycle>,
    pre: Clock,
    post: Clock,
    now: nat)

  ghost predicate Ascending(names: seq<Name>, clock: Clock) {
    && (forall i :: 0 <= i < |names| ==> names[i] in clock)
    && (forall i, j :: 0 <= i < j < |names| ==> clock[names[i]] < clock[names[j]])
  }

  /** Grey modules are exactly the stack. */
  ghost predicate Coloured(graph: Graph, s: Search) {
    && (forall n :: n in s.state ==> n in graph && (s.state[n] == GREY || s.state[n] == BLACK))
    && (forall n :: n in s.stack <==> n in s.state && s.state[n] == GREY)
  }

  /** The stack is a path, entered in its own order. */
  ghost predicate Stacked(graph: Graph, s: Search) {
    IsPath(graph, s.stack) && Ascending(s.stack, s.pre)
  }

  /** Every coloured module has one entry date, every black one a completion date. */
  ghost predicate Clocked(s: Search) {
    && (forall n :: n in s.pre <==> n in s.state)
    && (forall n :: n in s.pre ==> s.pre[n] < s.now)
    && (forall n :: n in s.post <==> n in s.state && s.state[n] == BLACK)
    && (forall n :: n in s.post ==> s.post[n] < s.now)
  }

  /** Every edge out of a black module is closing or leads to one completed earlier. */
  ghost predicate Settled(graph: Graph, s: Search) {
    forall a, b {:trigger SettledEdge(a, b, s)} :: IsEdge(graph, a, b) && a in s.post ==> SettledEdge(a, b, s)
  }

  ghost predicate SettledEdge(a: Name, b: Name, s: Search) {
    IsClosing(s.cycles, a, b) || (b in s.post && (a in s.post ==> s.post[b] < s.post[a]))
  }

  /** Reported cycles are simple, follow the entry order, and close differently. */
  ghost predicate Reported(graph: Graph, s: Search) {
    && (forall k {:trigger ReportedCycle(graph, s.cycles[k], s.pre)} :: 0 <= k < |s.cycles| ==>
          ReportedCycle(graph, s.cycles[k], s.pre))
    && DistinctClosings(s.cycles)
  }

  ghost predicate ReportedCycle(graph: Graph, cycle: Cycle, pre: Clock) {
    && |cycle| >= 2
    && cycle[0] == cycle[|cycle| - 1]
    && IsPath(graph, cycle)
    && Ascending(Opened(cycle), pre)
  }

  ghost predicate Valid(graph: Graph, s: Search) {
    Coloured(graph, s) && Stacked(graph, s) && Clocked(s) && Settled(graph, s) && Reported(graph, s)
  }

  ghost predicate Extends<V>(before: map<Name, V>, after: map<Name, V>) {
    forall n :: n in before ==> n in after && after[n] == before[n]
  }

  /** What any finished part of the search leaves as it was; the sources of the
      new closing edges were white before. */
  ghost predicate Grew(before: Search, after: Search) {
    && before.state.Keys <= after.state.Keys
    && Extends(before.pre, after.pre)
    && Extends(before.post, after.post)
    && before.cycles <= after.cycles
    && (forall k, a, b :: |before.cycles| <= k < |after.cycles| && EndsWith(after.cycles[k], a, b) ==>
          a !in before.state)
  }

  // ---- The three steps -----------------------------------------------------

  ghost function Enter(s: Search, name: Name): Search {
    s.(state := s.state[name := GREY], pre := s.pre[name := s.now], stack := s.stack + [name], now := s.now + 1)
  }

  ghost function Leave(s: Search, name: Name): Search
    requires s.stack != []
  {
    s.(state := s.state[name := BLACK], post := s.post[name := s.now], stack := s.stack[..|s.stack| - 1],
      now := s.now + 1)
  }

  ghost function Close(s: Search, start: nat): Search
    requires start < |s.stack|
  {
    s.(cycles := s.cycles + [s.stack[start..] + [s.stack[start]]])
  }

  // Entering a white module.

  lemma EnterKeepsStack(graph: Graph, s: Search, name: Name)
    requires Stacked(graph, s) && Clocked(s) && name !in s.state
    requires s.stack == [] || IsEdge(graph, s.stack[|s.stack| - 1], name)
    ensures Stacked(graph, Enter(s, name))
  {}

  lemma LaterClockKeepsReports(graph: Graph, s: Search, t: Search)
    requires Reported(graph, s) && s.cycles == t.cycles && Extends(s.pre, t.pre)
    ensures Reported(graph, t)
  {}

  lemma EnterKeepsValid(graph: Graph, s: Search, name: Name)
    requires Valid(graph, s) && name in graph && name !in s.state
    requires s.stack == [] || IsEdge(graph, s.stack[|s.stack| - 1], name)
    ensures Valid(graph, Enter(s, name))
  {
    var t := Enter(s, name);
    EnterKeepsStack(graph, s, name);
    LaterClockKeepsReports(graph, s, t);
    forall a, b | IsEdge(graph, a, b) && a in t.post ensures SettledEdge(a, b, t) {
      assert SettledEdge(a, b, s);
    }
  }

  // Reporting the cycle that a grey dependency closes.

  lemma CloseReports(graph: Graph, s: Search, start: nat)
    requires Stacked(graph, s) && Reported(graph, s) && start < |s.stack|
    requires IsEdge(graph, s.stack[|s.stack| - 1], s.stack[start])
    requires !IsClosing(s.cycles, s.stack[|s.stack| - 1], s.stack[start])
    ensures Reported(graph, Close(s, start))
  {
    var t := Close(s, start);
    var cycle: Cycle := s.stack[start..] + [s.stack[start]];
    assert Opened(cycle) == s.stack[start..];
    assert IsPath(graph, cycle) by {
      forall i, j | 0 <= i < j < |cycle| && j == i + 1 ensures IsEdge(graph, cycle[i], cycle[j]) {
        if j < |cycle| - 1 { assert IsEdge(graph, s.stack[start + i], s.stack[start + j]); }
      }
    }
    forall k | 0 <= k < |t.cycles| ensures ReportedCycle(graph, t.cycles[k], t.pre) {
      if k < |s.cycles| { assert t.cycles[k] == s.cycles[k]; }
    }
    forall j, k, a, b | 0 <= j < k < |t.cycles| && EndsWith(t.cycles[j], a, b) ensures !EndsWith(t.cycles[k], a, b) {
      assert t.cycles[j] == s.cycles[j];
    }
  }

  lemma CloseKeepsValid(graph: Graph, s: Search, start: nat)
    requires Valid(graph, s) && start < |s.stack|
    requires IsEdge(graph, s.stack[|s.stack| - 1], s.stack[start])
    requires !IsClosing(s.cycles, s.stack[|s.stack| - 1], s.stack[start])
    ensures Valid(graph, Close(s, start))
  {
    var t := Close(s, start);
    CloseReports(graph, s, start);
    forall a, b | IsEdge(graph, a, b) && a in t.post ensures SettledEdge(a, b, t) {
      assert SettledEdge(a, b, s);
      ClosingPrefix(s.cycles, t.cycles, a, b);
    }
  }

  lemma ClosingPrefix(before: seq<Cycle>, after: seq<Cycle>, a: Name, b: Name)
    requires before <= after
    ensures IsClosing(before, a, b) ==> IsClosing(after, a, b)
  {}

  // Leaving a module whose dependencies have all been examined.

  lemma LeaveKeepsColours(graph: Graph, s: Search, name: Name)
    requires Coloured(graph, s) && Distinct(s.stack) && s.stack != [] && s.stack[|s.stack| - 1] == name
    ensures Coloured(graph, Leave(s, name))
  {}

  lemma LeaveKeepsClocks(s: Search, name: Name)
    requires Clocked(s) && name in s.state && name !in s.post && s.stack != []
    ensures Clocked(Leave(s, name)) && Extends(s.post, Leave(s, name).post)
  {}

  lemma LeaveKeepsStack(graph: Graph, s: Search, name: Name)
    requires Stacked(graph, s) && s.stack != []
    ensures Stacked(graph, Leave(s, name))
  {}

  lemma LeaveKeepsValid(graph: Graph, s: Search, name: Name)
    requires Valid(graph, s) && s.stack != [] && s.stack[|s.stack| - 1] == name
    requires forall b :: IsEdge(graph, name, b) ==> SettledEdge(name, b, s)
    ensures Valid(graph, Leave(s, name))
  {
    var t := Leave(s, name);
    assert name in s.stack;
    LeaveKeepsColours(graph, s, name);
    LeaveKeepsClocks(s, name);
    LeaveKeepsStack(graph, s, name);
    LaterClockKeepsReports(graph, s, t);
    forall a, b | IsEdge(graph, a, b) && a in t.post ensures SettledEdge(a, b, t) {
      assert SettledEdge(a, b, s);
    }
  }

  // ---- The loop over one module's dependencies -----------------------------

  /** The dependencies already looked at are settled, and no others have closed. */
  ghost predicate Examined(graph: Graph, name: Name, names: seq<Name>, i: nat, s: Search)
    requires i <= |names|
  {
    && (forall j :: 0 <= j < i && IsEdge(graph, name, names[j]) ==> SettledEdge(name, names[j], s))
    && (forall d :: IsClosing(s.cycles, name, d) ==> d in names[..i])
  }

  lemma NothingExamined(graph: Graph, s: Search, name: Name, names: seq<Name>)
    requires Valid(graph, s) && name !in s.state
    ensures Examined(graph, name, names, 0, Enter(s, name))
  {
    forall k, a, b | 0 <= k < |s.cycles| && EndsWith(s.cycles[k], a, b) ensures a in s.pre {
      assert ReportedCycle(graph, s.cycles[k], s.pre);
      var path := Opened(s.cycles[k]);
      assert path[|path| - 1] in s.pre;
    }
  }

  lemma NotYetClosing(graph: Graph, name: Name, names: seq<Name>, i: nat, s: Search)
    requires StrictlySorted(names) && i < |names| && Examined(graph, name, names, i, s)
    ensures !IsClosing(s.cycles, name, names[i])
  {
    assert names[i] !in names[..i] by {
      assert forall j :: 0 <= j < i ==> Lt(names[j], names[i]);
    }
  }

  lemma ExaminedNext(graph: Graph, name: Name, names: seq<Name>, i: nat, s: Search)
    requires i < |names| && Examined(graph, name, names, i, s)
    requires IsEdge(graph, name, names[i]) ==> SettledEdge(name, names[i], s)
    ensures Examined(graph, name, names, i + 1, s)
  {}

  lemma ExaminedClosed(graph: Graph, name: Name, names: seq<Name>, i: nat, s: Search, start: nat)
    requires i < |names| && Examined(graph, name, names, i, s)
    requires start < |s.stack| && s.stack[|s.stack| - 1] == name && s.stack[start] == names[i]
    requires name !in s.post
    ensures Examined(graph, name, names, i + 1, Close(s, start))
  {
    var t := Close(s, start);
    assert names[..i + 1] == names[..i] + [names[i]];
    assert EndsWith(t.cycles[|s.cycles|], name, names[i]);
    forall j | 0 <= j < i + 1 && IsEdge(graph, name, names[j]) ensures SettledEdge(name, names[j], t) {
      ClosingPrefix(s.cycles, t.cycles, name, names[j]);
    }
    forall d | IsClosing(t.cycles, name, d) ensures d in names[..i + 1] {
      var k :| 0 <= k < |t.cycles| && EndsWith(t.cycles[k], name, d);
      if k < |s.cycles| {
        assert t.cycles[k] == s.cycles[k];
        assert IsClosing(s.cycles, name, d);
      }
    }
  }

  lemma AllExamined(graph: Graph, name: Name, names: seq<Name>, s: Search)
    requires name in graph && Elements(names) == graph[name] && Examined(graph, name, names, |names|, s)
    ensures forall b :: IsEdge(graph, name, b) ==> SettledEdge(name, b, s)
  {}

  /** What holds each time the loop of `visit(name)` looks at names[i]. */
  ghost predicate InLoop(graph: Graph, before: Search, name: Name, names: seq<Name>, i: nat, s: Search) {
    && i <= |names|
    && Valid(graph, s)
    && Grew(before, s)
    && s.stack == before.stack + [name]
    && Examined(graph, name, names, i, s)
  }

  lemma EnterLoop(graph: Graph, before: Search, name: Name, names: seq<Name>)
    requires Valid(graph, before) && name in graph && name !in before.state
    requires before.stack == [] || IsEdge(graph, before.stack[|before.stack| - 1], name)
    ensures InLoop(graph, before, name, names, 0, Enter(before, name))
  {
    EnterKeepsValid(graph, before, name);
    NothingExamined(graph, before, name, names);
  }

  lemma OnStack(graph: Graph, before: Search, name: Name, names: seq<Name>, i: nat, s: Search)
    requires InLoop(graph, before, name, names, i, s)
    ensures name in s.state && s.state[name] == GREY && name !in s.post
  {}

  lemma AfterVisit(graph: Graph, before: Search, name: Name, names: seq<Name>, i: nat, s: Search, t: Search)
    requires i < |names| && InLoop(graph, before, name, names, i, s)
    requires Valid(graph, t) && Grew(s, t) && t.stack == s.stack && names[i] in t.post
    ensures InLoop(graph, before, name, names, i + 1, t)
  {
    OnStack(graph, before, name, names, i, s);
    assert name in t.stack;
    ExaminedNext(graph, name, names, i, t);
  }

  lemma AfterClose(graph: Graph, before: Search, name: Name, names: seq<Name>, i: nat, s: Search, start: nat)
    requires StrictlySorted(names) && i < |names| && InLoop(graph, before, name, names, i, s)
    requires name !in before.state
    requires start < |s.stack| && s.stack[start] == names[i] && IsEdge(graph, name, names[i])
    ensures InLoop(graph, before, name, names, i + 1, Close(s, start))
  {
    OnStack(graph, before, name, names, i, s);
    NotYetClosing(graph, name, names, i, s);
    CloseKeepsValid(graph, s, start);
    ExaminedClosed(graph, name, names, i, s, start);
    CloseGrows(before, s, start);
  }

  /** The new cycle closes with an edge of the module being searched. */
  lemma CloseGrows(before: Search, s: Search, start: nat)
    requires Grew(before, s) && start < |s.stack| && s.stack[|s.stack| - 1] !in before.state
    ensures Grew(before, Close(s, start))
  {}

  lemma LeaveLoop(graph: Graph, before: Search, name: Name, names: seq<Name>, s: Search)
    requires InLoop(graph, before, name, names, |names|, s)
    requires name in graph && Elements(names) == graph[name] && name !in before.state
    ensures Valid(graph, Leave(s, name)) && Grew(before, Leave(s, name))
    ensures Leave(s, name).stack == before.stack
  {
    OnStack(graph, before, name, names, |names|, s);
    AllExamined(graph, name, names, s);
    LeaveKeepsValid(graph, s, name);
  }

  /** Each of the names has been entered and left. */
  ghost predicate Searched(names: seq<Name>, s: Search) {
    forall name :: name in names ==> name in s.post
  }

  lemma SearchedNext(names: seq<Name>, i: nat, s: Search, t: Search)
    requires i < |names| && Searched(names[..i], s)
    requires Grew(s, t) && names[i] in t.post
    ensures Searched(names[..i + 1], t)
  {}

  // ---- The search itself ---------------------------------------------------

  class Finder {
    const graph: Graph
    var state: map<Name, int>
    var stack: seq<Name>
    var cycles: seq<Cycle>
    ghost var pre: Clock
    ghost var post: Clock
    ghost var now: nat

    constructor (graph: Graph)
      ensures this.graph == graph
      ensures View() == Search(map[], [], [], map[], map[], 0)
    {
      this.graph := graph;
      state, stack, cycles := map[], [], [];
      pre, post, now := map[], map[], 0;
    }

    ghost function View(): Search
      reads this
    {
      Search(state, stack, cycles, pre, post, now)
    }

    method MarkGrey(name: Name)
      modifies this
      ensures View() == Enter(old(View()), name)
    {
      state := state[name := GREY];
      pre, now := pre[name := now], now + 1;
      stack := stack + [name];
    }

    method MarkBlack(name: Name)
      requires stack != []
      modifies this
      ensures View() == Leave(old(View()), name)
    {
      stack := stack[..|stack| - 1];
      state := state[name := BLACK];
      post, now := post[name := now], now + 1;
    }

    method Report(start: nat, dependency: Name)
      requires start < |stack| && stack[start] == dependency
      modifies this
      ensures View() == Close(old(View()), start)
    {
      cycles := cycles + [stack[start..] + [dependency]];
    }

    /** A dependency that is unknown, or has been entered: a cycle closes when it is grey. */
    method PassBy(dependency: Name, ghost before: Search, ghost name: Name, ghost dependencies: seq<Name>, ghost i: nat)
      requires i < |dependencies| && InLoop(graph, before, name, dependencies, i, View())
      requires dependency == dependencies[i] && (dependency in graph ==> dependency in state)
      requires name in graph && name !in before.state && dependencies == Sorted(graph[name])
      modifies this
      ensures InLoop(graph, before, name, dependencies, i + 1, View())
    {
      ghost var s := View();
      if dependency in graph && state[dependency] == GREY {
        var start := IndexOnStack(dependency);
        AfterClose(graph, before, name, dependencies, i, s, start);
        Report(start, dependency);
      }
    }

    /** Search everything reachable from a white module. */
    method Visit(name: Name)
      requires Valid(graph, View())
      requires name in graph && name !in state
      requires stack == [] || IsEdge(graph, stack[|stack| - 1], name)
      modifies this
      ensures Valid(graph, View()) && Grew(old(View()), View())
      ensures stack == old(stack)
      ensures name in post
      decreases graph.Keys - state.Keys
    {
      ghost var before := View();
      var dependencies := Sorted(graph[name]);
      EnterLoop(graph, before, name, dependencies);
      MarkGrey(name);
      var i := 0;
      while i < |dependencies|
        invariant InLoop(graph, before, name, dependencies, i, View())
      {
        var dependency := dependencies[i];
        if dependency in graph && dependency !in state {
          ghost var s := View();
          Visit(dependency);
          AfterVisit(graph, before, name, dependencies, i, s, View());
        } else {
          PassBy(dependency, before, name, dependencies, i);
        }
        i := i + 1;
      }
      ghost var s := View();
      LeaveLoop(graph, before, name, dependencies, s);
      OnStack(graph, before, name, dependencies, |dependencies|, s);
      MarkBlack(name);
    }

    /** `stack.index(dependency)`. */
    method IndexOnStack(dependency: Name) returns (start: nat)
      requires dependency in stack
      ensures start < |stack| && stack[start] == dependency
      ensures dependency !in stack[..start]
    {
      start := 0;
      while stack[start] != dependency
        invariant start < |stack| && dependency in stack[start..]
        invariant dependency !in stack[..start]
        decreases |stack| - start
      {
        start := start + 1;
      }
    }

    /** Visit every module not reached from an earlier one, in sorted order. */
    method Run()
      requires View() == Search(map[], [], [], map[], map[], 0)
      modifies this
      ensures Valid(graph, View())
      ensures stack == [] && state == map name | name in graph :: BLACK
      ensures post.Keys == graph.Keys
    {
      var names := Sorted(graph.Keys);
      var i := 0;
      while i < |names|
        invariant 0 <= i <= |names|
        invariant Valid(graph, View()) && stack == []
        invariant Searched(names[..i], View())
      {
        assert names[i] in Elements(names);
        ghost var s := View();
        if names[i] !in state {
          Visit(names[i]);
        }
        SearchedNext(names, i, s, View());
        i := i + 1;
      }
      assert forall name :: name in graph ==> name in Elements(names);
      assert post.Keys == graph.Keys && state.Keys == graph.Keys;
    }
  }

  // ---- What a finished search says about cycles ----------------------------

  /** Edges that always lead to a smaller rank cannot close a walk. */
  lemma RankedAcyclic(edges: set<Edge>, rank: Clock)
    requires forall e :: e in edges ==> e.0 in rank && e.1 in rank && rank[e.1] < rank[e.0]
    ensures Acyclic(edges)
  {
    forall walk: seq<Name> | IsClosedWalk(walk, edges) ensures false {
      RankFalls(walk, edges, rank, |walk| - 1);
    }
  }

  lemma {:induction false} RankFalls(walk: seq<Name>, edges: set<Edge>, rank: Clock, i: nat)
    requires IsWalk(walk, edges) && 0 < i < |walk|
    requires forall e :: e in edges ==> e.0 in rank && e.1 in rank && rank[e.1] < rank[e.0]
    ensures walk[0] in rank && walk[i] in rank && rank[walk[i]] < rank[walk[0]]
  {
    assert (walk[i - 1], walk[i]) in edges;
    if i > 1 { RankFalls(walk, edges, rank, i - 1); }
  }

  /** Closing edges lead to a module entered no later than their source. */
  lemma ClosingEdgesGoBack(graph: Graph, s: Search, a: Name, b: Name)
    requires Reported(graph, s) && IsClosing(s.cycles, a, b)
    ensures a in s.pre && b in s.pre && s.pre[b] <= s.pre[a]
  {
    var k :| 0 <= k < |s.cycles| && EndsWith(s.cycles[k], a, b);
    assert ReportedCycle(graph, s.cycles[k], s.pre);
    var path := Opened(s.cycles[k]);
    assert a == path[|path| - 1] && b == path[0];
  }

  lemma ReportedIsSimple(graph: Graph, cycle: Cycle, pre: Clock)
    requires ReportedCycle(graph, cycle, pre)
    ensures IsSimpleCycle(cycle, KnownEdges(graph))
  {}

  /** The other edges of a reported cycle lead to later entries, so the cycle
      needs no closing edge but its own. */
  lemma CycleNeedsOneClosing(graph: Graph, s: Search, k: nat)
    requires Reported(graph, s) && k < |s.cycles|
    ensures |s.cycles[k]| >= 2
    ensures IsClosedWalk(s.cycles[k], KnownEdges(graph) - (ClosingEdges(s.cycles) - {ClosingEdge(s.cycles[k])}))
  {
    var cycle := s.cycles[k];
    var path := Opened(cycle);
    assert ReportedCycle(graph, cycle, s.pre);
    ReportedIsSimple(graph, cycle, s.pre);
    forall i | 0 <= i < |cycle| - 2 ensures (cycle[i], cycle[i + 1]) !in ClosingEdges(s.cycles) {
      assert s.pre[path[i]] < s.pre[path[i + 1]];
      if (cycle[i], cycle[i + 1]) in ClosingEdges(s.cycles) {
        ClosingEdgesGoBack(graph, s, cycle[i], cycle[i + 1]);
        assert false;
      }
    }
  }

  lemma FinishedSearchReports(graph: Graph, s: Search)
    requires Valid(graph, s) && s.post.Keys == graph.Keys
    ensures IsCycleReport(s.cycles, graph)
    ensures s.cycles == [] <==> Acyclic(KnownEdges(graph))
  {
    var edges := KnownEdges(graph);
    forall e | e in edges - ClosingEdges(s.cycles)
      ensures e.0 in s.post && e.1 in s.post && s.post[e.1] < s.post[e.0]
    {
      assert IsEdge(graph, e.0, e.1) && SettledEdge(e.0, e.1, s);
    }
    RankedAcyclic(edges - ClosingEdges(s.cycles), s.post);
    forall k | 0 <= k < |s.cycles|
      ensures IsSimpleCycle(s.cycles[k], edges)
      ensures !Acyclic(edges - (ClosingEdges(s.cycles) - {ClosingEdge(s.cycles[k])}))
    {
      ReportedIsSimple(graph, s.cycles[k], s.pre);
      CycleNeedsOneClosing(graph, s, k);
    }
    if s.cycles == [] {
      assert edges - ClosingEdges(s.cycles) == edges;
    } else {
      assert IsClosedWalk(s.cycles[0], edges);
    }
  }

  /** The audit's cycle report. It is empty exactly when the graph on the known
      modules has no cycle. */
  method FindCycles(graph: Graph) returns (cycles: seq<Cycle>)
    ensures IsCycleReport(cycles, graph)
    ensures cycles == [] <==> Acyclic(KnownEdges(graph))
  {
    var finder := new Finder(graph);
    finder.Run();
    FinishedSearchReports(graph, finder.View());
    cycles := finder.cycles;
  }
}
