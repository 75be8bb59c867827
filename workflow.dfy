/** The agent's own topology (`_build_graph`, agent/agent.py:182-203), run by
    the interpreter of module `Graphs`, and the entry point `run`
    (agent/agent.py:206-225). */
module Workflow {
  import opened Maybe
  import opened Backend
  import opened AgentState
  import opened Routing
  import opened Nodes
  import opened Graphs

  /** The names the agent registers with `add_node`. */
  const NodeNames: set<string> := {RouterNode, AnswerDirectNode, AnswerRagNode, AnswerQuizNode}

  /** The node function registered under a name. */
  function NodeFunction(gen: Generate, name: string): State -> Result<State> {
    (st: State) => if name == RouterNode then Router(gen, st) else AnswerNode(gen, name, st)
  }

  /** The edge out of a node: the router's conditional edge, and END after
      each answer node. */
  function EdgeOf(name: string): Edge {
    if name == RouterNode then Conditional((st: State) => Goto(RouteEdge(st)))
    else Static(Finish)
  }

  /** The agent's graph: START to the router, the conditional edge out of the
      router, and each answer node to END. */
  function AgentGraph(gen: Generate): (g: Graph)
    ensures g.entry == Goto(RouterNode)
    ensures g.nodes.Keys == g.edges.Keys == NodeNames
    ensures g.edges[RouterNode].Conditional?
    ensures g.edges[AnswerDirectNode] == g.edges[AnswerRagNode] == g.edges[AnswerQuizNode] == Static(Finish)
  {
    Graph(
      Goto(RouterNode),
      map name | name in NodeNames :: NodeFunction(gen, name),
      map name | name in NodeNames :: EdgeOf(name))
  }

  /** The most node steps one run may take. */
  const StepLimit: nat := 25

  /** `run`: walk the agent's graph from `{"question": question}` and return
      the final `answer`, or "" when it was never set. For every backend and
      every question, that is the backend's reply to the answer prompt of the
      route it chose for the stripped question, `None` included, and the run
      fails exactly when one of those two calls raises. */
  function Run(gen: Generate, question: Option<string>): (r: Result<Option<string>>)
    ensures
      var q := Text.Strip(question.GetOr(""));
      var c := gen(RouterPrompt(q), RouterTemperature);
      if c.Raised? then r == Err(BackendRaised)
      else
        var route := ClassifyReply(c.reply);
        var a := gen(AnswerPrompt(route, q), AnswerTemperature(route));
        r == if a.Raised? then Err(BackendRaised) else Ok(a.reply)
  {
    var g := AgentGraph(gen);
    var st := Seed(question);
    WalkIsPipeline(gen, st, StepLimit);
    PipelineAnswers(gen, st);
    match Walk(g, g.entry, st, StepLimit)
    case Err(e) => Err(e)
    case Ok(t) => Ok(t.final.answer.GetOr(Some("")))
  }

  // ---------- What a run does ----------

  /** The answer node a name stands for. */
  function AnswerNode(gen: Generate, name: string, st: State): (r: Result<State>)
    ensures r.Ok? ==> Extends(st, r.value)
  {
    if name == AnswerRagNode then AnswerRag(gen, st)
    else if name == AnswerQuizNode then AnswerQuiz(gen, st)
    else AnswerDirect(gen, st)
  }

  /** The run the topology describes, written straight: the router, then the
      answer node its edge selects, then the end. */
  function Pipeline(gen: Generate, st: State): Result<Trace> {
    match Router(gen, st)
    case Err(e) => Err(e)
    case Ok(s1) =>
      match AnswerNode(gen, RouteEdge(s1), s1)
      case Err(e) => Err(e)
      case Ok(s2) => Ok(Trace(s2, [RouterNode, RouteEdge(s1)]))
  }

  /** What the agent's graph holds under each name, at one state. */
  lemma AgentGraphAt(gen: Generate, st: State)
    ensures AgentGraph(gen).nodes[RouterNode](st) == Router(gen, st)
    ensures AgentGraph(gen).nodes[AnswerDirectNode](st) == AnswerDirect(gen, st)
    ensures AgentGraph(gen).nodes[AnswerRagNode](st) == AnswerRag(gen, st)
    ensures AgentGraph(gen).nodes[AnswerQuizNode](st) == AnswerQuiz(gen, st)
    ensures Follow(AgentGraph(gen).edges[RouterNode], st) == Goto(RouteEdge(st))
  {
    var g := AgentGraph(gen);
    assert g.nodes[RouterNode] == NodeFunction(gen, RouterNode);
    assert g.nodes[AnswerDirectNode] == NodeFunction(gen, AnswerDirectNode);
    assert g.nodes[AnswerRagNode] == NodeFunction(gen, AnswerRagNode);
    assert g.nodes[AnswerQuizNode] == NodeFunction(gen, AnswerQuizNode);
    assert g.edges[RouterNode] == EdgeOf(RouterNode);
  }

  /** Every node of the agent returns its whole input state with keys added
      or overwritten, so merging its output changes nothing further. */
  lemma AgentNodesExtend(gen: Generate, name: string, st: State)
    requires name in AgentGraph(gen).nodes
    ensures AgentGraph(gen).nodes[name](st).Ok? ==>
      Extends(st, AgentGraph(gen).nodes[name](st).value)
      && Merge(st, AgentGraph(gen).nodes[name](st).value) == AgentGraph(gen).nodes[name](st).value
  {
    AgentGraphAt(gen, st);
    var r := AgentGraph(gen).nodes[name](st);
    if r.Ok? {
      MergeOfExtension(st, r.value);
    }
  }

  /** With two steps or more to spend, walking the agent's graph is the
      router followed by one answer node: exactly two steps, never the
      router twice, and no failure but the backend's. */
  lemma WalkIsPipeline(gen: Generate, st: State, fuel: nat)
    requires fuel >= 2
    ensures Walk(AgentGraph(gen), AgentGraph(gen).entry, st, fuel) == Pipeline(gen, st)
  {
    var g := AgentGraph(gen);
    AgentGraphAt(gen, st);
    var r1 := Router(gen, st);
    if r1.Ok? {
      var s1 := r1.value;
      var b := RouteEdge(s1);
      AgentGraphAt(gen, s1);
      assert g.nodes[b](s1) == AnswerNode(gen, b, s1);
      WalkTwo(g, RouterNode, b, st, fuel);
    } else {
      WalkNodeFails(g, RouterNode, st, fuel);
    }
  }

  /** One step is not enough: once the router succeeds, a walk with a single
      step fails on the step limit. With `WalkIsPipeline` this shows that a
      run takes exactly two steps, so the two-step bound there is tight. */
  lemma OneStepIsTooFew(gen: Generate, st: State)
    requires Router(gen, st).Ok?
    ensures Walk(AgentGraph(gen), AgentGraph(gen).entry, st, 1) == Err(RecursionLimit)
  {
    var g := AgentGraph(gen);
    var s1 := Router(gen, st).value;
    AgentGraphAt(gen, st);
    WalkThrough(g, RouterNode, st, s1, 1);
  }

  /** The pipeline from a state holding a question: the backend's reply to the
      answer prompt of the route it chose for the stripped question, or a
      failure exactly when one of the two calls raises. */
  lemma PipelineAnswers(gen: Generate, st: State)
    ensures
      var q := QuestionText(st);
      var c := gen(RouterPrompt(q), RouterTemperature);
      if c.Raised? then Pipeline(gen, st) == Err(BackendRaised)
      else
        var route := ClassifyReply(c.reply);
        var a := gen(AnswerPrompt(route, q), AnswerTemperature(route));
        if a.Raised? then Pipeline(gen, st) == Err(BackendRaised)
        else Pipeline(gen, st).Ok? && Pipeline(gen, st).value.final.answer == Present(a.reply)
  {
    var q := QuestionText(st);
    var r1 := Router(gen, st);
    if r1.Ok? {
      var s1 := r1.value;
      var route := ClassifyReply(gen(RouterPrompt(q), RouterTemperature).reply);
      assert s1 == st.(route := Present(RouteName(route)));
      assert QuestionText(s1) == q;
      RouteEdgeOfStoredRoute(st, route);
      match route
      case Direct => assert AnswerNode(gen, RouteEdge(s1), s1) == AnswerDirect(gen, s1);
      case Rag => assert AnswerNode(gen, RouteEdge(s1), s1) == AnswerRag(gen, s1);
      case Quiz => assert AnswerNode(gen, RouteEdge(s1), s1) == AnswerQuiz(gen, s1);
    }
  }

  /** A backend that echoes every prompt sends every question down the quiz
      route: the router's own instruction holds the word `quiz`. */
  lemma EchoBackendQuizzes(gen: Generate, question: Option<string>)
    requires forall p: string, t: real :: gen(p, t) == Returned(Some(p))
    ensures Run(gen, question) == Ok(Some(QuizPrompt(Text.Strip(question.GetOr("")))))
  {
    EchoedRouterPromptIsQuiz(Text.Strip(question.GetOr("")));
  }
}
