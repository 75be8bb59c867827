/** Route classification and the conditional edge out of the router
    (agent/agent.py:92-99 and 172-179). */
module Routing {
  import opened Maybe
  import opened Text
  import opened AgentState

  /** Words in the backend's reply that select the quiz route. */
  const QuizTokens: seq<string> := ["quiz", "виктор", "тест"]
  /** Words in the backend's reply that select the retrieval route. */
  const RagTokens: seq<string> := ["rag", "контекст", "поиск"]

  /** The names of the graph's nodes. */
  const RouterNode: string := "router"
  const AnswerDirectNode: string := "answer_direct"
  const AnswerRagNode: string := "answer_rag"
  const AnswerQuizNode: string := "answer_quiz"

  /** `(reply or "").strip().lower()`: no whitespace at either end and no
      upper-case letter; nothing for a missing reply. */
  function Normalize(reply: Option<string>): (t: string)
    ensures |t| <= |reply.GetOr("")|
    ensures NoEdgeSpace(t)
    ensures forall i :: 0 <= i < |t| ==> !IsUpper(t[i])
    ensures reply.None? ==> t == []
  {
    var s := Strip(reply.GetOr(""));
    StripHasNoEdgeSpace(reply.GetOr(""));
    Lower(s)
  }

  /** The route for an already normalised reply: quiz words first, then
      retrieval words, and the direct route when neither occurs. */
  function Classify(t: string): (r: Route)
    ensures r == Quiz <==> Mentions(t, QuizTokens)
    ensures r == Rag <==> !Mentions(t, QuizTokens) && Mentions(t, RagTokens)
    ensures r == Direct <==> !Mentions(t, QuizTokens) && !Mentions(t, RagTokens)
  {
    if ContainsAny(t, QuizTokens) then Quiz
    else if ContainsAny(t, RagTokens) then Rag
    else Direct
  }

  /** The route of a raw reply of the backend, told by the words of its
      normalised text; a missing reply is the direct route. */
  function ClassifyReply(reply: Option<string>): (r: Route)
    ensures r == Quiz <==> Mentions(Normalize(reply), QuizTokens)
    ensures r == Rag <==> !Mentions(Normalize(reply), QuizTokens) && Mentions(Normalize(reply), RagTokens)
    ensures reply.None? ==> r == Direct
  {
    TokensArePlainWords();
    NothingInEmpty(QuizTokens);
    NothingInEmpty(RagTokens);
    Classify(Normalize(reply))
  }

  /** The empty text mentions no non-empty word. */
  lemma NothingInEmpty(ws: seq<string>)
    requires forall k :: 0 <= k < |ws| ==> ws[k] != []
    ensures !Mentions([], ws)
  {
    assert forall k :: 0 <= k < |ws| ==> !Occurs([], ws[k]);
  }

  /** No token holds whitespace, and every token is already lower case. */
  lemma TokensArePlainWords()
    ensures forall k, i :: 0 <= k < |QuizTokens| && 0 <= i < |QuizTokens[k]| ==>
      !IsSpace(QuizTokens[k][i]) && !IsUpper(QuizTokens[k][i])
    ensures forall k, i :: 0 <= k < |RagTokens| && 0 <= i < |RagTokens[k]| ==>
      !IsSpace(RagTokens[k][i]) && !IsUpper(RagTokens[k][i])
    ensures forall k :: 0 <= k < |QuizTokens| ==> QuizTokens[k] != []
    ensures forall k :: 0 <= k < |RagTokens| ==> RagTokens[k] != []
  {
  }

  /** A reply that is missing, empty or only whitespace gives the direct route. */
  lemma {:induction false} BlankReplyIsDirect(reply: Option<string>)
    requires reply.Some? ==> forall i :: 0 <= i < |reply.value| ==> IsSpace(reply.value[i])
    ensures ClassifyReply(reply) == Direct
  {
    StripAllSpace(reply.GetOr(""));
    assert Normalize(reply) == [];
    TokensArePlainWords();
    assert forall k :: 0 <= k < |QuizTokens| ==> !Occurs([], QuizTokens[k]);
    assert forall k :: 0 <= k < |RagTokens| ==> !Occurs([], RagTokens[k]);
  }

  /** A word `u` of the raw reply whose lower-case form is one of `tokens`
      survives normalisation. */
  lemma {:induction false} TokenSurvivesNormalize(reply: string, u: string, tokens: seq<string>, k: nat)
    requires k < |tokens| && Lower(u) == tokens[k] && tokens[k] != []
    requires forall i :: 0 <= i < |tokens[k]| ==> !IsSpace(tokens[k][i])
    requires Occurs(reply, u)
    ensures Mentions(Normalize(Some(reply)), tokens)
  {
    forall i | 0 <= i < |u| ensures !IsSpace(u[i]) {
      assert Lower(u)[i] == LowerChar(u[i]);
    }
    StripKeepsOccurrence(reply, u);
    LowerKeepsOccurrence(Strip(reply), u);
    assert Occurs(Normalize(Some(reply)), tokens[k]);
  }

  /** A quiz word in the reply, in any letter case, selects the quiz route,
      whatever retrieval words the reply also holds. */
  lemma QuizWordWins(reply: string, u: string, k: nat)
    requires k < |QuizTokens| && CaseVariant(u, QuizTokens[k])
    requires Occurs(reply, u)
    ensures ClassifyReply(Some(reply)) == Quiz
  {
    TokensArePlainWords();
    CaseVariantLowers(u, QuizTokens[k]);
    TokenSurvivesNormalize(reply, u, QuizTokens, k);
  }

  /** A retrieval word in the reply, in any letter case, selects the retrieval
      route unless the normalised reply also holds a quiz word. */
  lemma RagWordWithoutQuizWord(reply: string, u: string, k: nat)
    requires k < |RagTokens| && CaseVariant(u, RagTokens[k])
    requires Occurs(reply, u)
    requires !Mentions(Normalize(Some(reply)), QuizTokens)
    ensures ClassifyReply(Some(reply)) == Rag
  {
    TokensArePlainWords();
    CaseVariantLowers(u, RagTokens[k]);
    TokenSurvivesNormalize(reply, u, RagTokens, k);
  }

  /** The answer node for a route. */
  function AnswerNodeOf(r: Route): string {
    match r
    case Direct => AnswerDirectNode
    case Rag => AnswerRagNode
    case Quiz => AnswerQuizNode
  }

  /** The table of `_route_edge`. */
  const EdgeTable: map<string, string> :=
    map["direct" := AnswerDirectNode, "rag" := AnswerRagNode, "quiz" := AnswerQuizNode]

  /** `_route_edge`: the node after the router, read from the stored route;
      a missing or unknown value goes to the direct answer. */
  function RouteEdge(st: State): (n: string)
    ensures n == AnswerDirectNode || n == AnswerRagNode || n == AnswerQuizNode
    ensures n == AnswerRagNode <==> st.route == Present("rag")
    ensures n == AnswerQuizNode <==> st.route == Present("quiz")
    ensures n == AnswerDirectNode <==> st.route != Present("rag") && st.route != Present("quiz")
  {
    var route := st.route.GetOr("direct");
    if route in EdgeTable then EdgeTable[route] else AnswerDirectNode
  }

  /** Whatever the state, the edge never leads back to the router. */
  lemma RouteEdgeNeverLoops(st: State)
    ensures RouteEdge(st) != RouterNode
  {
  }

  /** The edge follows the route the router stored. */
  lemma RouteEdgeOfStoredRoute(st: State, r: Route)
    ensures RouteEdge(st.(route := Present(RouteName(r)))) == AnswerNodeOf(r)
  {
  }
}
