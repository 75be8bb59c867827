/** A small interpreter of a state graph in the manner of langgraph's
    `StateGraph`: named nodes, static and conditional edges, an end marker,
    last-value merging of each node's output into the state, and a bound on
    the number of steps of one run. */
module Graphs {
  import opened Maybe
  import opened AgentState

  /** The outcome of a node or of a walk. */
  datatype Result<+T> = Ok(value: T) | Err(error: Failure)

  /** What can make a run fail: a node's backend call raising, or one of the
      interpreter's refusals of a run that exceeds its step limit or of a
      malformed topology. */
  datatype Failure =
    | BackendRaised
    | RecursionLimit
    | UnknownNode(name: string)
    | DeadEnd(name: string)

  /** Where an edge leads: a named node, or the end marker. */
  datatype Target = Goto(node: string) | Finish

  /** An edge out of a node: a fixed target, or one chosen from the state. */
  datatype Edge = Static(to: Target) | Conditional(select: State -> Target)

  /** A topology: the target of the start marker's edge, the node functions
      by name, and the edge out of each node. */
  datatype Graph = Graph(
    entry: Target,
    nodes: map<string, State -> Result<State>>,
    edges: map<string, Edge>)

  /** The node after a node, for the state that node produced. */
  function Follow(e: Edge, st: State): Target {
    match e
    case Static(t) => t
    case Conditional(select) => select(st)
  }

  /** The outcome of a walk: the last state and the nodes run, in order. */
  datatype Trace = Trace(final: State, visited: seq<string>)

  /** Run the graph from `at` on `st`, at most `fuel` node steps: run the
      node, merge its output over the state, follow its edge, and stop at the
      end marker. A run that would need more steps fails. */
  function Walk(g: Graph, at: Target, st: State, fuel: nat): (r: Result<Trace>)
    ensures r.Ok? ==> |r.value.visited| <= fuel
    ensures r.Ok? ==> forall k :: 0 <= k < |r.value.visited| ==> r.value.visited[k] in g.nodes
    ensures r.Ok? && at.Goto? ==> |r.value.visited| >= 1 && r.value.visited[0] == at.node
    decreases fuel
  {
    match at
    case Finish => Ok(Trace(st, []))
    case Goto(name) =>
      if fuel == 0 then Err(RecursionLimit)
      else if name !in g.nodes then Err(UnknownNode(name))
      else if name !in g.edges then Err(DeadEnd(name))
      else
        match g.nodes[name](st)
        case Err(e) => Err(e)
        case Ok(out) =>
          var next := Merge(st, out);
          match Walk(g, Follow(g.edges[name], next), next, fuel - 1)
          case Err(e) => Err(e)
          case Ok(t) => Ok(Trace(t.final, [name] + t.visited))
  }

  /** A node that fails ends the walk with its failure. */
  lemma WalkNodeFails(g: Graph, name: string, st: State, fuel: nat)
    requires fuel >= 1 && name in g.nodes && name in g.edges && g.nodes[name](st).Err?
    ensures Walk(g, Goto(name), st, fuel) == Err(g.nodes[name](st).error)
  {
  }

  /** A node that returns an extension of its input hands exactly that
      output to its edge, and heads the trace of the rest of the walk. */
  lemma {:induction false} WalkThrough(g: Graph, name: string, st: State, out: State, fuel: nat)
    requires fuel >= 1 && name in g.nodes && name in g.edges
    requires g.nodes[name](st) == Ok(out) && Extends(st, out)
    ensures Walk(g, Goto(name), st, fuel) ==
      match Walk(g, Follow(g.edges[name], out), out, fuel - 1)
      case Err(e) => Err(e)
      case Ok(t) => Ok(Trace(t.final, [name] + t.visited))
  {
    MergeOfExtension(st, out);
  }

  /** A node whose edge leads to the end is the last one run. */
  lemma WalkLast(g: Graph, name: string, st: State, out: State, fuel: nat)
    requires fuel >= 1 && name in g.nodes && name in g.edges && g.edges[name] == Static(Finish)
    requires g.nodes[name](st) == Ok(out) && Extends(st, out)
    ensures Walk(g, Goto(name), st, fuel) == Ok(Trace(out, [name]))
  {
    WalkThrough(g, name, st, out, fuel);
    assert Walk(g, Finish, out, fuel - 1) == Ok(Trace(out, []));
    assert [name] + [] == [name];
  }

  /** A walk through a node `a` whose edge leads to a node `b` whose edge
      leads to the end: `a` then `b`, stopping at the first failure. Each
      node's output extends its input, so merging adds nothing. */
  lemma {:induction false} WalkTwo(g: Graph, a: string, b: string, st: State, fuel: nat)
    requires fuel >= 2 && a in g.nodes && a in g.edges
    requires g.nodes[a](st).Ok? ==>
      && Extends(st, g.nodes[a](st).value)
      && Follow(g.edges[a], g.nodes[a](st).value) == Goto(b)
      && b in g.nodes && b in g.edges && g.edges[b] == Static(Finish)
      && (g.nodes[b](g.nodes[a](st).value).Ok? ==>
            Extends(g.nodes[a](st).value, g.nodes[b](g.nodes[a](st).value).value))
    ensures Walk(g, Goto(a), st, fuel) ==
      match g.nodes[a](st)
      case Err(e) => Err(e)
      case Ok(s1) =>
        match g.nodes[b](s1)
        case Err(e) => Err(e)
        case Ok(s2) => Ok(Trace(s2, [a, b]))
  {
    match g.nodes[a](st)
    case Err(e) =>
      WalkNodeFails(g, a, st, fuel);
    case Ok(s1) =>
      WalkThrough(g, a, st, s1, fuel);
      match g.nodes[b](s1)
      case Err(e) =>
        WalkNodeFails(g, b, s1, fuel - 1);
      case Ok(s2) =>
        WalkLast(g, b, s1, s2, fuel - 1);
        assert [a] + [b] == [a, b];
  }
}
