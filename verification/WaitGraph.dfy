/** The wait-for graph of the lock manager and the depth-first search that looks for deadlocks in it
    (pokerapp/lock_manager.py, `_detect_cycles`). */
module WaitGraph {
  import opened Basics

  /** asyncio tasks, by identity. */
  type Task = nat

  /** Maps a waiting task to the tasks it waits for; the iteration order of each set is arbitrary. */
  type Graph = map<Task, set<Task>>

  function Successors(g: Graph, task: Task): set<Task> {
    if task in g then g[task] else {}
  }

  function Nodes(g: Graph): set<Task> {
    g.Keys + set n, m | n in g && m in g[n] :: m
  }

  lemma SuccessorsAreNodes(g: Graph, task: Task, next: Task)
    requires next in Successors(g, task)
    ensures next in Nodes(g)
  {
  }

  ghost predicate Walk(g: Graph, w: seq<Task>) {
    forall i :: 0 <= i < |w| - 1 ==> w[i + 1] in Successors(g, w[i])
  }

  ghost predicate ClosedWalk(g: Graph, w: seq<Task>) {
    |w| >= 2 && w[0] == w[|w| - 1] && Walk(g, w)
  }

  ghost predicate HasCycle(g: Graph) {
    exists w :: ClosedWalk(g, w)
  }

  function Describe(name: Task -> string, w: seq<Task>): seq<string> {
    seq(|w|, i requires 0 <= i < |w| => name(w[i]))
  }

  /** `entry` is the printed form of a deadlock that really is in the graph: a closed walk that meets
      no task twice before it is back where it began. */
  ghost predicate Reported(g: Graph, name: Task -> string, entry: seq<string>) {
    exists w :: ClosedWalk(g, w) && Distinct(w[..|w| - 1]) && entry == Describe(name, w)
  }

  type Edge = (Task, Task)

  /** Every task of `order` waits only for tasks that come earlier in `order`, except along edges of `back`. */
  ghost predicate Settled(g: Graph, order: seq<Task>, back: set<Edge>) {
    forall i, n :: 0 <= i < |order| && n in Successors(g, order[i]) && (order[i], n) !in back ==> n in order[..i]
  }

  lemma SettledStays(g: Graph, order: seq<Task>, back: set<Edge>, more: set<Edge>)
    requires Settled(g, order, back) && back <= more
    ensures Settled(g, order, more)
  {
  }

  /** The walk goes along an edge of `back`. */
  ghost predicate Crosses(w: seq<Task>, back: set<Edge>) {
    exists i :: 0 <= i < |w| - 1 && (w[i], w[i + 1]) in back
  }

  /** Along a walk inside a settled order the positions fall, so no walk comes back to its start without an edge of
      `back`. */
  lemma {:induction false} WalkDescends(g: Graph, order: seq<Task>, back: set<Edge>, w: seq<Task>, at: nat)
    requires Settled(g, order, back) && Walk(g, w) && |w| >= 2 && !Crosses(w, back)
    requires at < |order| && order[at] == w[0]
    ensures w[|w| - 1] in order[..at]
  {
    assert w[0 + 1] in Successors(g, w[0]) && (w[0], w[0 + 1]) !in back;
    var next :| 0 <= next < at && order[next] == w[1];
    if |w| > 2 {
      forall i | 0 <= i < |w[1..]| - 1
        ensures w[1..][i + 1] in Successors(g, w[1..][i]) && (w[1..][i], w[1..][i + 1]) !in back
      {
        assert w[i + 2] in Successors(g, w[i + 1]) && (w[i + 1], w[i + 1 + 1]) !in back;
      }
      WalkDescends(g, order, back, w[1..], next);
      assert order[..next] <= order[..at];
    }
  }

  function Members(s: seq<Task>): set<Task> {
    set n | n in s
  }

  /** When the nodes of a graph can be listed in an order that is settled except for the edges of `back`, every directed
      cycle goes along one of these. */
  lemma CyclesCrossBackEdges(g: Graph, order: seq<Task>, back: set<Edge>, w: seq<Task>)
    requires Settled(g, order, back) && Distinct(order)
    requires g.Keys <= Members(order) && ClosedWalk(g, w)
    ensures Crosses(w, back)
  {
    if !Crosses(w, back) {
      assert w[0 + 1] in Successors(g, w[0]);
      assert w[0] in Members(order);
      var at :| 0 <= at < |order| && order[at] == w[0];
      WalkDescends(g, order, back, w, at);
    }
  }

  /** Among `cycles` there is the printed form of a deadlock that is closed by this edge. */
  ghost predicate ClosedBy(g: Graph, name: Task -> string, cycles: seq<seq<string>>, e: Edge) {
    exists w ::
      && ClosedWalk(g, w) && Distinct(w[..|w| - 1]) && Describe(name, w) in cycles
      && e == (w[|w| - 2], w[|w| - 1])
  }

  /** The walk goes along an edge that closes a reported deadlock. */
  ghost predicate Meets(g: Graph, name: Task -> string, cycles: seq<seq<string>>, w: seq<Task>) {
    exists i :: 0 <= i < |w| - 1 && ClosedBy(g, name, cycles, (w[i], w[i + 1]))
  }

  ghost predicate AllMet(g: Graph, name: Task -> string, cycles: seq<seq<string>>) {
    forall w {:trigger Meets(g, name, cycles, w)} :: ClosedWalk(g, w) ==> Meets(g, name, cycles, w)
  }

  /** The part of the search stack from `first` on, closed with an edge back to `first`, is a closed walk
      without repetition. */
  lemma BackEdgeCloses(g: Graph, stack: seq<Task>, first: nat)
    requires first < |stack| && Walk(g, stack) && Distinct(stack)
    requires stack[first] in Successors(g, stack[|stack| - 1])
    ensures var w := stack[first..] + [stack[first]]; ClosedWalk(g, w) && Distinct(w[..|w| - 1])
  {
    var w := stack[first..] + [stack[first]];
    assert w[..|w| - 1] == stack[first..];
    forall i | 0 <= i < |w| - 1 ensures w[i + 1] in Successors(g, w[i]) {
      if i < |stack| - first - 1 {
        assert w[i] == stack[first + i] && w[i + 1] == stack[first + i + 1];
      }
    }
  }

  ghost predicate AllReported(g: Graph, name: Task -> string, cycles: seq<seq<string>>) {
    forall c :: c in cycles ==> Reported(g, name, c)
  }

  ghost predicate AllClosed(g: Graph, name: Task -> string, cycles: seq<seq<string>>, back: set<Edge>) {
    forall e :: e in back ==> ClosedBy(g, name, cycles, e)
  }

  lemma BackEdgeIsReported(g: Graph, name: Task -> string, stack: seq<Task>, first: nat)
    requires first < |stack| && Walk(g, stack) && Distinct(stack)
    requires stack[first] in Successors(g, stack[|stack| - 1])
    ensures var entry := Describe(name, stack[first..] + [stack[first]]);
            Reported(g, name, entry) && ClosedBy(g, name, [entry], (stack[|stack| - 1], stack[first]))
  {
    BackEdgeCloses(g, stack, first);
    var w := stack[first..] + [stack[first]];
    assert (w[|w| - 2], w[|w| - 1]) == (stack[|stack| - 1], stack[first]);
  }

  lemma StaysClosed(g: Graph, name: Task -> string, before: seq<seq<string>>, after: seq<seq<string>>, e: Edge)
    requires (forall c :: c in before ==> c in after) && ClosedBy(g, name, before, e)
    ensures ClosedBy(g, name, after, e)
  {
    var w :| ClosedWalk(g, w) && Distinct(w[..|w| - 1]) && Describe(name, w) in before
             && e == (w[|w| - 2], w[|w| - 1]);
    assert Describe(name, w) in after;
  }

  /** One edge back into the path more, and its deadlock reported, if it is not yet. */
  lemma OneMoreReport(g: Graph, name: Task -> string, before: seq<seq<string>>, back: set<Edge>,
                      order: seq<Task>, edge: Edge, entry: seq<string>, after: seq<seq<string>>)
    requires AllReported(g, name, before) && AllClosed(g, name, before, back) && Settled(g, order, back)
    requires Reported(g, name, entry) && ClosedBy(g, name, [entry], edge)
    requires after == before + [entry] || (entry in before && after == before)
    ensures AllReported(g, name, after) && AllClosed(g, name, after, back + {edge})
    ensures Settled(g, order, back + {edge})
  {
    SettledStays(g, order, back, back + {edge});
    StaysClosed(g, name, [entry], after, edge);
    forall e | e in back ensures ClosedBy(g, name, after, e) {
      StaysClosed(g, name, before, after, e);
    }
  }

  /** The variables that the nested `dfs` closure updates. */
  class CycleFinder {
    const graph: Graph
    const name: Task -> string
    var cycles: seq<seq<string>>
    var visited: set<Task>
    var stack: seq<Task>
    var onStack: set<Task>
    /** Tasks whose exploration is over, in the order in which it ended. */
    ghost var finished: seq<Task>
    /** Edges that led back into the current path. */
    ghost var back: set<Edge>

    ghost predicate OnPath()
      reads this`visited, this`stack, this`onStack, this`finished
    {
      && visited <= Nodes(graph)
      && onStack == Members(stack)
      && visited == onStack + Members(finished)
      && onStack !! Members(finished)
      && Distinct(stack) && Distinct(finished)
      && Walk(graph, stack)
    }

    ghost predicate ReportsAgree()
      reads this`finished, this`cycles, this`back
    {
      && Settled(graph, finished, back)
      && AllClosed(graph, name, cycles, back)
      && AllReported(graph, name, cycles)
    }

    ghost predicate Valid()
      reads this
    {
      OnPath() && ReportsAgree()
    }

    constructor (graph: Graph, name: Task -> string)
      ensures Valid() && this.graph == graph && this.name == name
      ensures visited == {} && stack == [] && cycles == [] && finished == []
    {
      this.graph := graph;
      this.name := name;
      cycles, visited, stack, onStack, finished, back := [], {}, [], {}, [], {};
    }

    method Dfs(node: Task)
      requires Valid() && node in Nodes(graph) && node !in visited
      requires stack != [] ==> node in Successors(graph, stack[|stack| - 1])
      modifies this
      ensures Valid() && stack == old(stack) && onStack == old(onStack)
      ensures old(visited) + {node} <= visited
      ensures old(cycles) <= cycles && old(back) <= back
      decreases Nodes(graph) - visited
    {
      Enter(node);
      var todo := Successors(graph, node);
      while todo != {}
        invariant Valid() && stack == old(stack) + [node] && onStack == old(onStack) + {node}
        invariant old(visited) + {node} <= visited
        invariant todo <= Successors(graph, node)
        invariant old(cycles) <= cycles && old(back) <= back
        invariant forall n :: n in Successors(graph, node) - todo && (node, n) !in back ==> n in visited - onStack
        decreases todo
      {
        var neighbor :| neighbor in todo;
        todo := todo - {neighbor};
        if neighbor !in visited {
          SuccessorsAreNodes(graph, node, neighbor);
          Dfs(neighbor);
        } else if neighbor in onStack {
          Report(neighbor);
        }
      }
      Leave(node);
    }

    method Enter(node: Task)
      requires Valid() && node in Nodes(graph) && node !in visited
      requires stack != [] ==> node in Successors(graph, stack[|stack| - 1])
      modifies this`visited, this`stack, this`onStack
      ensures Valid() && stack == old(stack) + [node]
      ensures visited == old(visited) + {node} && onStack == old(onStack) + {node}
    {
      visited := visited + {node};
      stack := stack + [node];
      onStack := onStack + {node};
    }

    /** A wait-for edge back into the current path closes a cycle, which is kept unless an equal
        printed form is already there. */
    method Report(neighbor: Task)
      requires Valid() && neighbor in onStack && neighbor in Successors(graph, stack[|stack| - 1])
      modifies this`cycles, this`back
      ensures Valid() && old(cycles) <= cycles && back == old(back) + {(stack[|stack| - 1], neighbor)}
    {
      var entry := PathBackTo(neighbor);
      ghost var edge := (stack[|stack| - 1], neighbor);
      var more := if entry in cycles then cycles else cycles + [entry];
      OneMoreReport(graph, name, cycles, back, finished, edge, entry, more);
      cycles := more;
      back := back + {edge};
    }

    /** The printed form of the path from `neighbor` on, closed. */
    method PathBackTo(neighbor: Task) returns (entry: seq<string>)
      requires Valid() && neighbor in onStack && neighbor in Successors(graph, stack[|stack| - 1])
      ensures Reported(graph, name, entry) && ClosedBy(graph, name, [entry], (stack[|stack| - 1], neighbor))
    {
      var first := IndexOf(neighbor);
      entry := Describe(name, stack[first..] + [neighbor]);
      BackEdgeIsReported(graph, name, stack, first);
    }

    method Leave(node: Task)
      requires Valid() && stack != [] && node == stack[|stack| - 1]
      requires forall n :: n in Successors(graph, node) && (node, n) !in back ==> n in visited - onStack
      modifies this`stack, this`onStack, this`finished
      ensures Valid() && stack == old(stack)[..|old(stack)| - 1]
      ensures onStack == old(onStack) - {node}
    {
      SettledGrows(node);
      assert Members(finished + [node]) == Members(finished) + {node};
      assert Members(stack[..|stack| - 1]) == Members(stack) - {node};
      stack := stack[..|stack| - 1];
      onStack := onStack - {node};
      finished := finished + [node];
    }

    lemma SettledGrows(node: Task)
      requires Settled(graph, finished, back)
      requires forall n :: n in Successors(graph, node) && (node, n) !in back ==> n in Members(finished)
      ensures Settled(graph, finished + [node], back)
    {
      var order := finished + [node];
      forall i, n | 0 <= i < |order| && n in Successors(graph, order[i]) && (order[i], n) !in back
        ensures n in order[..i]
      {
        assert order[..|finished|] == finished;
        if i < |finished| {
          assert order[..i] == finished[..i];
        }
      }
    }

    /** `stack.index(task)` */
    method IndexOf(task: Task) returns (i: nat)
      requires task in stack
      ensures i < |stack| && stack[i] == task
    {
      i := 0;
      while stack[i] != task
        invariant i < |stack| && task in stack[i..]
        decreases |stack| - i
      {
        i := i + 1;
      }
    }
  }

  /** `_detect_cycles` reports something exactly when tasks wait in a circle; everything it reports is the printed form
      of a closed walk along wait-for edges; and every circle goes along an edge that closes a reported one, so taking
      these edges away would end all deadlocks. */
  method DetectCycles(graph: Graph, name: Task -> string) returns (cycles: seq<seq<string>>)
    ensures cycles != [] <==> HasCycle(graph)
    ensures forall c :: c in cycles ==> Reported(graph, name, c)
    ensures AllMet(graph, name, cycles)
  {
    var finder := new CycleFinder(graph, name);
    var todo := graph.Keys;
    while todo != {}
      invariant finder.Valid() && fresh(finder) && finder.stack == []
      invariant finder.graph == graph && finder.name == name
      invariant todo <= graph.Keys
      invariant graph.Keys - todo <= finder.visited
      decreases todo
    {
      var node :| node in todo;
      todo := todo - {node};
      if node !in finder.visited {
        finder.Dfs(node);
      }
    }
    cycles := finder.cycles;
    assert finder.onStack == {};
    AllAreMet(graph, name, cycles, finder.finished, finder.back);
    ReportedExactlyWhenCyclic(graph, name, cycles);
  }

  lemma CrossingMeets(g: Graph, name: Task -> string, cycles: seq<seq<string>>, back: set<Edge>, w: seq<Task>)
    requires AllClosed(g, name, cycles, back) && Crosses(w, back)
    ensures Meets(g, name, cycles, w)
  {
    var i :| 0 <= i < |w| - 1 && (w[i], w[i + 1]) in back;
    assert ClosedBy(g, name, cycles, (w[i], w[i + 1]));
  }

  lemma MetMeansReported(g: Graph, name: Task -> string, cycles: seq<seq<string>>, w: seq<Task>)
    requires Meets(g, name, cycles, w)
    ensures cycles != []
  {
  }

  lemma ReportedIsACycle(g: Graph, name: Task -> string, cycles: seq<seq<string>>, entry: seq<string>)
    requires AllReported(g, name, cycles) && entry in cycles
    ensures HasCycle(g)
  {
    assert Reported(g, name, entry);
  }

  lemma AllAreMet(g: Graph, name: Task -> string, cycles: seq<seq<string>>, order: seq<Task>, back: set<Edge>)
    requires Settled(g, order, back) && Distinct(order) && g.Keys <= Members(order)
    requires AllClosed(g, name, cycles, back) && AllReported(g, name, cycles)
    ensures AllMet(g, name, cycles)
  {
    forall w | ClosedWalk(g, w) ensures Meets(g, name, cycles, w) {
      CyclesCrossBackEdges(g, order, back, w);
      CrossingMeets(g, name, cycles, back, w);
    }
  }

  lemma ReportedExactlyWhenCyclic(g: Graph, name: Task -> string, cycles: seq<seq<string>>)
    requires AllMet(g, name, cycles) && AllReported(g, name, cycles)
    ensures cycles != [] <==> HasCycle(g)
  {
    if HasCycle(g) {
      var w :| ClosedWalk(g, w);
      assert Meets(g, name, cycles, w);
      MetMeansReported(g, name, cycles, w);
    }
    if cycles != [] {
      ReportedIsACycle(g, name, cycles, cycles[0]);
    }
  }
}
